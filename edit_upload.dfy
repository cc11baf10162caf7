/**
 * The administrator's edit dialog for an upload: its schema and the update
 * payload, whose keys depend on the upload's type (company details only for a
 * placement, creator and platform only for a lecture). The payload is built
 * in place as a dictionary, then applied to the row with the upload's id.
 *
 * The `uploads` table is a map from row id to the row's columns.
 */
module EditUpload {
  import opened Basics

  /** A column value: text or null. */
  datatype Value = Text(s: string) | Null

  type Row = map<string, Value>

  /** The upload being edited, as passed to the dialog. */
  datatype Upload = Upload(
    id: string, title: string, description: Option<string>, typeName: string,
    companyName: Option<string>, companyRole: Option<string>, difficulty: Option<string>,
    creatorName: Option<string>, platform: Option<string>)

  /** The dialog's form values. */
  datatype Values = Values(
    title: string, description: Option<string>, companyName: Option<string>, companyRole: Option<string>,
    difficulty: Option<string>, creatorName: Option<string>, platform: Option<string>)

  const Difficulties := ["Easy", "Medium", "Hard"]

  /** The schema: a non-empty title, and a difficulty that is one of the three levels or
      null. */
  predicate Valid(v: Values) {
    v.title != "" && (v.difficulty.Some? ==> v.difficulty.value in Difficulties)
  }

  /** `x || null` on an optional text. */
  function ValueOf(s: Option<string>): (r: Value)
    ensures r.Text? <==> Truthy(s)
    ensures r.Text? ==> r.s == s.value
  {
    if Truthy(s) then Text(s.value) else Null
  }

  /** `x ?? ''` */
  function OrEmpty(s: Option<string>): string {
    if s.Some? then s.value else ""
  }

  /** The form's initial values: null texts shown as empty, a null difficulty kept. */
  function Defaults(u: Upload): Values {
    Values(u.title, Some(OrEmpty(u.description)), Some(OrEmpty(u.companyName)), Some(OrEmpty(u.companyRole)),
           u.difficulty, Some(OrEmpty(u.creatorName)), Some(OrEmpty(u.platform)))
  }

  const PlacementKeys: set<string> := {"company_name", "company_role", "difficulty"}
  const LectureKeys: set<string> := {"creator_name", "platform"}

  /** The keys the payload carries for an upload type. */
  function PayloadKeys(typeName: string): set<string> {
    {"title", "description"}
    + (if typeName == "placement" then PlacementKeys else {})
    + (if typeName == "lecture" then LectureKeys else {})
  }

  /** The value each field takes in the payload, when the payload carries it. */
  function FieldValue(v: Values, key: string): Value {
    match key
    case "title" => Text(v.title)
    case "description" => ValueOf(v.description)
    case "company_name" => ValueOf(v.companyName)
    case "company_role" => ValueOf(v.companyRole)
    case "difficulty" => ValueOf(v.difficulty)
    case "creator_name" => ValueOf(v.creatorName)
    case "platform" => ValueOf(v.platform)
    case _ => Null
  }

  /** The payload: each key the type carries, with its field's value. */
  function Payload(u: Upload, v: Values): Row {
    map k | k in PayloadKeys(u.typeName) :: FieldValue(v, k)
  }

  /** `mutationFn`'s payload: the base keys, then the placement keys, then the lecture keys,
      each added in place. */
  method BuildPayload(u: Upload, v: Values) returns (payload: Row)
    ensures payload == Payload(u, v)
  {
    payload := map["title" := Text(v.title), "description" := ValueOf(v.description)];
    if u.typeName == "placement" {
      payload := payload["company_name" := ValueOf(v.companyName)];
      payload := payload["company_role" := ValueOf(v.companyRole)];
      payload := payload["difficulty" := ValueOf(v.difficulty)];
    }
    if u.typeName == "lecture" {
      payload := payload["creator_name" := ValueOf(v.creatorName)];
      payload := payload["platform" := ValueOf(v.platform)];
    }
    if u.typeName == "placement" {
      PlacementPayload(u, v);
    } else if u.typeName == "lecture" {
      LecturePayload(u, v);
    } else {
      BasePayload(u, v);
    }
  }

  lemma BasePayload(u: Upload, v: Values)
    requires u.typeName != "placement" && u.typeName != "lecture"
    ensures Payload(u, v) == map["title" := Text(v.title), "description" := ValueOf(v.description)]
  {
    assert PayloadKeys(u.typeName) == {"title", "description"};
  }

  lemma PlacementPayload(u: Upload, v: Values)
    requires u.typeName == "placement"
    ensures Payload(u, v) == map["title" := Text(v.title), "description" := ValueOf(v.description)]
      ["company_name" := ValueOf(v.companyName)]["company_role" := ValueOf(v.companyRole)]
      ["difficulty" := ValueOf(v.difficulty)]
  {
    assert PayloadKeys(u.typeName) == {"title", "description", "company_name", "company_role", "difficulty"};
  }

  lemma LecturePayload(u: Upload, v: Values)
    requires u.typeName == "lecture"
    ensures Payload(u, v) == map["title" := Text(v.title), "description" := ValueOf(v.description)]
      ["creator_name" := ValueOf(v.creatorName)]["platform" := ValueOf(v.platform)]
  {
    assert PayloadKeys(u.typeName) == {"title", "description", "creator_name", "platform"};
  }

  /** Title and description are always sent; company details exactly for a placement;
      creator and platform exactly for a lecture; a note sends only title and
      description. */
  lemma PayloadKeysByType(typeName: string)
    ensures "title" in PayloadKeys(typeName) && "description" in PayloadKeys(typeName)
    ensures PlacementKeys <= PayloadKeys(typeName) <==> typeName == "placement"
    ensures "company_name" in PayloadKeys(typeName) <==> typeName == "placement"
    ensures LectureKeys <= PayloadKeys(typeName) <==> typeName == "lecture"
    ensures "platform" in PayloadKeys(typeName) <==> typeName == "lecture"
    ensures typeName == "note" ==> PayloadKeys(typeName) == {"title", "description"}
  {
  }

  /** The column a field of the stored upload lives in. */
  function StoredValue(u: Upload, key: string): Option<string> {
    match key
    case "title" => Some(u.title)
    case "description" => u.description
    case "company_name" => u.companyName
    case "company_role" => u.companyRole
    case "difficulty" => u.difficulty
    case "creator_name" => u.creatorName
    case "platform" => u.platform
    case _ => None
  }

  /** Submitting the untouched defaults writes back every stored value that was null or
      non-empty; a stored empty text other than the title comes back as null. */
  lemma DefaultsRoundTrip(u: Upload, key: string)
    requires key in PayloadKeys(u.typeName)
    ensures StoredValue(u, key) == None ==> FieldValue(Defaults(u), key) == Null
    ensures Truthy(StoredValue(u, key)) ==> FieldValue(Defaults(u), key) == Text(StoredValue(u, key).value)
    ensures key != "title" && StoredValue(u, key) == Some("") ==> FieldValue(Defaults(u), key) == Null
    ensures FieldValue(Defaults(u), "title") == Text(u.title)
  {
  }

  /** The update `.eq('id', id)`: only the row with that id changes, and only in the
      payload's columns. */
  function Update(table: map<string, Row>, id: string, payload: Row): map<string, Row> {
    if id in table then table[id := table[id] + payload] else table
  }

  lemma UpdateOnlyThatRow(table: map<string, Row>, id: string, payload: Row)
    ensures Update(table, id, payload).Keys == table.Keys
    ensures forall other :: other in table && other != id ==> Update(table, id, payload)[other] == table[other]
    ensures id in table ==>
      (forall k :: k in payload ==> Update(table, id, payload)[id][k] == payload[k])
      && (forall k :: k in table[id] && k !in payload ==> Update(table, id, payload)[id][k] == table[id][k])
  {
  }

  /** The dialog: the `uploads` table and whether the dialog is open. */
  class Dialog {
    const upload: Upload
    var table: map<string, Row>
    var open: bool

    constructor (upload: Upload, table: map<string, Row>)
      ensures this.upload == upload && this.table == table && open
    {
      this.upload := upload;
      this.table := table;
      open := true;
    }

    /** Submit validated values: build the payload, update the row; on success the dialog
        closes, on error it stays open and the table is unchanged. */
    method Submit(v: Values, ok: bool)
      modifies this
      ensures ok ==> table == Update(old(table), upload.id, Payload(upload, v)) && !open
      ensures !ok ==> table == old(table) && open == old(open)
    {
      var payload := BuildPayload(upload, v);
      if !ok {
        return;
      }
      table := Update(table, upload.id, payload);
      open := false;
    }
  }
}
