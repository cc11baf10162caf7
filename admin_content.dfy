/**
 * The administrators' content table: all uploads newest first, or the flagged
 * ones most-flagged first, optionally narrowed to one type; deleting an upload
 * and toggling its visibility. The `uploads` table is a sequence of rows that
 * the two mutations replace.
 */
module AdminContent {
  import opened Basics
  import opened Listing
  import ResourcePages

  /** The query for the table: a type filter unless "all", and for the flagged view only
      rows with a positive flag count. Hidden rows are included. */
  function AdminCriteria(flagged: bool, typeFilter: string): Criteria {
    Criteria(ResourcePages.FilterValue(typeFilter), Unrestricted, None, None, None, None, flagged)
  }

  function AdminOrder(flagged: bool): SortKey {
    if flagged then ByFlags else ByCreatedAt
  }

  function AdminUploads(rows: seq<Upload>, flagged: bool, typeFilter: string): seq<Upload> {
    Select(rows, AdminCriteria(flagged, typeFilter), AdminOrder(flagged))
  }

  /** The flagged view lists exactly the rows (hidden or not) whose flag count is present
      and positive, most flags first; the full view lists every row, newest first; both
      narrowed to the chosen type unless it is "all". */
  lemma AdminListing(rows: seq<Upload>, flagged: bool, typeFilter: string)
    ensures var res := AdminUploads(rows, flagged, typeFilter);
      (forall x :: x in res <==> x in rows && ListedByAdmin(flagged, typeFilter, x))
      && (flagged ==> SortedDesc(res, ByFlags))
      && (!flagged ==> SortedDesc(res, ByCreatedAt))
  {
    var res := AdminUploads(rows, flagged, typeFilter);
    forall x ensures x in res <==> x in rows && ListedByAdmin(flagged, typeFilter, x) {
      assert x in res <==> multiset(res)[x] > 0;
      assert x in rows <==> multiset(rows)[x] > 0;
      assert Satisfies(AdminCriteria(flagged, typeFilter), x) <==> ListedByAdmin(flagged, typeFilter, x);
    }
  }

  /** The row predicate of the two views. */
  predicate ListedByAdmin(flagged: bool, typeFilter: string, x: Upload) {
    (typeFilter == "all" || TypeName(x.utype) == typeFilter)
    && (flagged ==> x.flags.Some? && x.flags.value > 0)
  }

  /** The query-cache key of each view. */
  function QueryKey(flagged: bool): string {
    if flagged then "admin-flagged-uploads" else "admin-uploads"
  }

  /** The type selector is offered only in the full view. */
  predicate TypeSelectorShown(flagged: bool) {
    !flagged
  }

  /** The two views cache under different keys, and only the full view can change its
      type filter, so the flagged view always uses "all". */
  lemma ViewsAreSeparate()
    ensures QueryKey(true) != QueryKey(false)
    ensures TypeSelectorShown(false) && !TypeSelectorShown(true)
  {
  }

  /** `.delete().eq('id', id)` */
  function DeleteRows(rows: seq<Upload>, id: string): (r: seq<Upload>)
    ensures forall x: Upload :: x.id != id ==> multiset(r)[x] == multiset(rows)[x]
    ensures forall x: Upload :: x.id == id ==> multiset(r)[x] == 0
  {
    if rows == [] then []
    else
      var rest := DeleteRows(rows[1..], id);
      assert rows == [rows[0]] + rows[1..];
      if rows[0].id == id then rest else [rows[0]] + rest
  }

  /** The value the toggle writes: `!is_hidden` of the row as displayed, where a NULL
      reads as false. */
  function Toggled(displayed: Option<bool>): bool {
    !(displayed == Some(true))
  }

  /** `.update({ is_hidden: v }).eq('id', id)` */
  function SetHidden(rows: seq<Upload>, id: string, v: bool): (r: seq<Upload>)
    ensures |r| == |rows|
  {
    seq(|rows|, i requires 0 <= i < |rows| => if rows[i].id == id then rows[i].(isHidden := Some(v)) else rows[i])
  }

  /** The update changes only the visibility of the rows with that id. */
  lemma SetHiddenEffect(rows: seq<Upload>, id: string, v: bool)
    ensures forall i :: 0 <= i < |rows| && rows[i].id != id ==> SetHidden(rows, id, v)[i] == rows[i]
    ensures forall i :: 0 <= i < |rows| && rows[i].id == id ==>
      SetHidden(rows, id, v)[i] == rows[i].(isHidden := Some(v)) && (IsShown(SetHidden(rows, id, v)[i]) <==> !v)
  {
  }

  /** Toggling a visible row hides it and toggling a hidden one shows it; a row whose flag
      is NULL (displayed as visible, yet left out of every public listing) is hidden by the
      first toggle and shown by the second, so two toggles restore a set flag but turn a
      NULL into false. */
  lemma ToggleTwice(displayed: Option<bool>)
    ensures displayed == Some(false) ==> Toggled(displayed) == true
    ensures displayed == Some(true) ==> Toggled(displayed) == false
    ensures displayed == None ==> Toggled(displayed) == true
    ensures Some(Toggled(Some(Toggled(displayed)))) == displayed <==> displayed.Some?
    ensures Toggled(Some(Toggled(displayed))) == (displayed == Some(true))
  {
    match displayed
    case None =>
    case Some(b) =>
  }

  /** The table as the administrator manipulates it. */
  class ContentTable {
    const flagged: bool
    var rows: seq<Upload>
    var typeFilter: string

    constructor (flagged: bool, rows: seq<Upload>)
      ensures this.flagged == flagged && this.rows == rows && typeFilter == "all"
    {
      this.flagged := flagged;
      this.rows := rows;
      typeFilter := "all";
    }

    /** What the table shows. */
    function Shown(): seq<Upload>
      reads this
    {
      AdminUploads(rows, flagged, typeFilter)
    }

    method ChangeType(value: string)
      requires TypeSelectorShown(flagged)
      modifies this
      ensures typeFilter == value && rows == old(rows)
    {
      typeFilter := value;
    }

    /** A failed mutation changes nothing. */
    method Delete(id: string, ok: bool)
      modifies this
      ensures rows == (if ok then DeleteRows(old(rows), id) else old(rows))
      ensures typeFilter == old(typeFilter)
    {
      if ok {
        rows := DeleteRows(rows, id);
      }
    }

    method ToggleVisibility(id: string, displayed: Option<bool>, ok: bool)
      modifies this
      ensures rows == (if ok then SetHidden(old(rows), id, Toggled(displayed)) else old(rows))
      ensures typeFilter == old(typeFilter)
    {
      if ok {
        rows := SetHidden(rows, id, !(displayed == Some(true)));
      }
    }
  }
}
