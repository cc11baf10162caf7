/**
 * The administrator's form for creating a study group: the schema (a name of
 * at least three characters, each invitation link a URL or empty) and the
 * insert, which stores empty optional texts as null and resets the form only
 * when the insert succeeds.
 *
 * Whether a text is a URL is decided by the URL parser the validator calls;
 * it is a parameter of the schema here.
 */
module GroupForm {
  import opened Basics
  import opened Text

  datatype Values = Values(
    name: string, description: Option<string>, university: Option<string>,
    telegramLink: Option<string>, whatsappLink: Option<string>, isOfficial: Option<bool>)

  const Defaults := Values("", Some(""), Some(""), Some(""), Some(""), Some(false))

  /** A link field: absent, empty, or accepted by the URL parser. */
  predicate LinkOk(link: Option<string>, isUrl: string -> bool) {
    link.None? || link.value == "" || isUrl(link.value)
  }

  predicate Valid(v: Values, isUrl: string -> bool) {
    Utf16Length(v.name) >= 3 && LinkOk(v.telegramLink, isUrl) && LinkOk(v.whatsappLink, isUrl)
  }

  /** The row inserted into `groups`. */
  datatype NewGroup = NewGroup(
    name: string, description: Option<string>, university: Option<string>,
    telegramLink: Option<string>, whatsappLink: Option<string>, isOfficial: bool)

  /** The insert payload: each optional text as typed when it is non-empty, null otherwise;
      an unset official flag parses as false. */
  function Payload(v: Values): (g: NewGroup)
    ensures g.name == v.name
    ensures g.isOfficial <==> v.isOfficial == Some(true)
    ensures g.description.Some? <==> Truthy(v.description)
    ensures g.university.Some? <==> Truthy(v.university)
    ensures g.telegramLink.Some? <==> Truthy(v.telegramLink)
    ensures g.whatsappLink.Some? <==> Truthy(v.whatsappLink)
    ensures Truthy(v.description) ==> g.description == v.description
    ensures Truthy(v.university) ==> g.university == v.university
    ensures Truthy(v.telegramLink) ==> g.telegramLink == v.telegramLink
    ensures Truthy(v.whatsappLink) ==> g.whatsappLink == v.whatsappLink
  {
    NewGroup(v.name, OrNull(v.description), OrNull(v.university), OrNull(v.telegramLink), OrNull(v.whatsappLink),
             v.isOfficial.GetOr(false))
  }

  /** A valid name has at least three characters (counted in code points, at least two);
      a stored link is always one the URL parser accepted. */
  lemma ValidGroup(v: Values, isUrl: string -> bool)
    requires Valid(v, isUrl)
    ensures |v.name| >= 2 && v.name != ""
    ensures Payload(v).telegramLink.Some? ==> isUrl(Payload(v).telegramLink.value)
    ensures Payload(v).whatsappLink.Some? ==> isUrl(Payload(v).whatsappLink.value)
  {
  }

  /** The untouched form is invalid (its name is empty) and would create an unofficial
      group. */
  lemma DefaultsRejected(isUrl: string -> bool)
    ensures !Valid(Defaults, isUrl)
    ensures !Payload(Defaults).isOfficial
  {
  }

  /** The form: the `groups` table, the current values and the loading flag. */
  class Form {
    var groups: seq<NewGroup>
    var values: Values
    var loading: bool

    constructor (groups: seq<NewGroup>)
      ensures this.groups == groups && values == Defaults && !loading
    {
      this.groups := groups;
      values := Defaults;
      loading := false;
    }

    /** `onSubmit`: on success one row is added and the form reset; on error the table and
        the values stay as they were. Loading is off afterwards either way. */
    method OnSubmit(v: Values, ok: bool)
      modifies this
      ensures ok ==> groups == old(groups) + [Payload(v)] && values == Defaults
      ensures !ok ==> groups == old(groups) && values == old(values)
      ensures !loading
    {
      loading := true;
      if ok {
        groups := groups + [Payload(v)];
        values := Defaults;
      }
      loading := false;
    }
  }
}
