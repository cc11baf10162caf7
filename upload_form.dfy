/**
 * The upload form: its validation schema (field bounds plus four refinements)
 * and its submit handler, which stores a note's file under
 * `<user id>/<timestamp>.<extension>` and inserts one row into `uploads`.
 *
 * Lengths are counted the way the validator counts them, in UTF-16 code units.
 * File storage is a map from path to the uploaded file's name; whether the
 * storage upload and the insert succeed are parameters.
 */
module UploadForm {
  import opened Basics
  import opened Text

  /** The form's values as the validator sees them. `files` lists the chosen files'
      names (empty when none was chosen). */
  datatype FormData = FormData(
    title: string,
    description: Option<string>,
    typeName: Option<string>,
    externalLink: Option<string>,
    files: seq<string>,
    course: string,
    otherCourse: Option<string>,
    subject: string,
    university: Option<string>,
    otherUniversity: Option<string>,
    creatorName: Option<string>,
    platform: Option<string>)

  /** The form's default values, restored after a successful upload. */
  const Defaults := FormData("", Some(""), None, Some(""), [], "", Some(""), "", Some(""), Some(""), Some(""), Some(""))

  const Other := "OTHER"

  /** Present and not only white space. */
  predicate NonBlank(s: Option<string>) {
    s.Some? && Trim(s.value) != ""
  }

  predicate HasFile(d: FormData) {
    d.files != []
  }

  predicate IsNote(d: FormData) {
    d.typeName == Some("note")
  }

  /** The field rules of the base object. */
  predicate FieldsOk(d: FormData) {
    && 1 <= Utf16Length(d.title) <= 200
    && (d.description.Some? ==> Utf16Length(d.description.value) <= 1000)
    && d.typeName.Some? && d.typeName.value in ["note", "lecture", "placement"]
    && Utf16Length(d.course) >= 1
    && Utf16Length(d.subject) >= 1
  }

  /** First refinement: choosing OTHER for the university needs a non-blank name. */
  predicate OtherUniversityGiven(d: FormData) {
    d.university == Some(Other) ==> NonBlank(d.otherUniversity)
  }

  /** Second refinement: the same for the course. */
  predicate OtherCourseGiven(d: FormData) {
    d.course == Other ==> NonBlank(d.otherCourse)
  }

  /** Third refinement: a note needs a non-blank link or a file, other types a non-blank
      link. */
  predicate LinkOrFile(d: FormData) {
    if IsNote(d) then NonBlank(d.externalLink) || HasFile(d) else NonBlank(d.externalLink)
  }

  /** Fourth refinement: a note without a file needs a non-blank link. */
  predicate LinkUnlessFile(d: FormData) {
    IsNote(d) ==> HasFile(d) || NonBlank(d.externalLink)
  }

  predicate Valid(d: FormData) {
    FieldsOk(d) && OtherUniversityGiven(d) && OtherCourseGiven(d) && LinkOrFile(d) && LinkUnlessFile(d)
  }

  /** The fourth refinement rejects nothing the third accepts, so it never changes the
      verdict; and the third is stricter, since for a lecture or placement without a link
      the fourth alone would pass. */
  lemma FourthRefinementRedundant(d: FormData)
    ensures LinkOrFile(d) ==> LinkUnlessFile(d)
    ensures Valid(d) <==> FieldsOk(d) && OtherUniversityGiven(d) && OtherCourseGiven(d) && LinkOrFile(d)
    ensures !IsNote(d) && !NonBlank(d.externalLink) ==> LinkUnlessFile(d) && !LinkOrFile(d)
  {
  }

  /** What validation guarantees about the values the handler receives. */
  lemma ValidBounds(d: FormData)
    requires Valid(d)
    ensures 1 <= |d.title| <= 200 && d.course != "" && d.subject != ""
    ensures d.description.Some? ==> |d.description.value| <= 1000
    ensures d.course == Other ==> Truthy(d.otherCourse)
    ensures d.university == Some(Other) ==> Truthy(d.otherUniversity)
    ensures !IsNote(d) ==> Truthy(d.externalLink)
    ensures IsNote(d) ==> Truthy(d.externalLink) || HasFile(d)
  {
  }

  /** The row inserted into `uploads`. */
  datatype UploadRow = UploadRow(
    userId: string, title: string, description: Option<string>, typeName: Option<string>,
    externalLink: Option<string>, filePath: Option<string>, course: string, subject: string,
    university: Option<string>, creatorName: Option<string>, platform: Option<string>)

  /** The storage path of an uploaded note: `<user id>/<timestamp>.<text after the last
      '.' of the file name>`. */
  function FilePath(userId: string, now: nat, fileName: string): string {
    userId + "/" + NatToString(now) + "." + AfterLast(fileName, '.')
  }

  /** The stored course: the upper-cased free text when OTHER was chosen and given. */
  function StoredCourse(d: FormData): string {
    if d.course == Other && Truthy(d.otherCourse) then ToUpper(d.otherCourse.value) else d.course
  }

  /** The stored university: as for the course, and null when none was chosen. */
  function StoredUniversity(d: FormData): Option<string> {
    if d.university == Some(Other) && Truthy(d.otherUniversity) then Some(ToUpper(d.otherUniversity.value))
    else OrNull(d.university)
  }

  /** The inserted row, given the stored file path (if a file was uploaded). */
  function Row(userId: string, d: FormData, filePath: Option<string>): UploadRow {
    UploadRow(userId, d.title, OrNull(d.description), d.typeName,
              if filePath.Some? then None else OrNull(d.externalLink), filePath,
              StoredCourse(d), d.subject, StoredUniversity(d), OrNull(d.creatorName), OrNull(d.platform))
  }

  /** Storage, the uploads table and the form's values. */
  datatype FormState = FormState(storage: map<string, string>, uploads: seq<UploadRow>, values: FormData)

  /** `onSubmit`: a note with a file is stored first; a failing upload or insert stops
      the submission where it failed. */
  function SubmitSpec(st: FormState, userId: Option<string>, d: FormData, now: nat, uploadOk: bool, insertOk: bool): FormState {
    if userId.None? then st
    else if IsNote(d) && HasFile(d) then
      var path := FilePath(userId.value, now, d.files[0]);
      if !uploadOk then st
      else
        var stored := st.(storage := st.storage[path := d.files[0]]);
        if !insertOk then stored
        else stored.(uploads := st.uploads + [Row(userId.value, d, Some(path))], values := Defaults)
    else if !insertOk then st
    else st.(uploads := st.uploads + [Row(userId.value, d, None)], values := Defaults)
  }

  /** Without a logged-in user nothing is stored or inserted. */
  lemma NoUserNoUpload(st: FormState, d: FormData, now: nat, uploadOk: bool, insertOk: bool)
    ensures SubmitSpec(st, None, d, now, uploadOk, insertOk) == st
  {
  }

  /** A successful submission adds exactly one row. A note with a file gets the file path
      and a null link even when a link was typed; everything else keeps its link (null
      when empty) and no path. Empty optional texts become null. */
  lemma SuccessfulSubmission(st: FormState, userId: string, d: FormData, now: nat)
    ensures var st' := SubmitSpec(st, Some(userId), d, now, true, true);
      |st'.uploads| == |st.uploads| + 1 && st'.uploads[..|st.uploads|] == st.uploads && st'.values == Defaults
      && var row := st'.uploads[|st.uploads|];
      row.userId == userId && row.title == d.title && row.subject == d.subject
      && (IsNote(d) && HasFile(d) ==>
            row.filePath == Some(FilePath(userId, now, d.files[0])) && row.externalLink == None
            && st'.storage == st.storage[FilePath(userId, now, d.files[0]) := d.files[0]])
      && (!(IsNote(d) && HasFile(d)) ==> row.filePath == None && row.externalLink == OrNull(d.externalLink) && st'.storage == st.storage)
      && (row.description.Some? <==> Truthy(d.description))
      && (row.creatorName.Some? <==> Truthy(d.creatorName))
      && (row.platform.Some? <==> Truthy(d.platform))
  {
  }

  /** A failed insert after a successful file upload leaves the file in storage with no
      row pointing at it. */
  lemma FailedInsertKeepsFile(st: FormState, userId: string, d: FormData, now: nat)
    requires IsNote(d) && HasFile(d)
    ensures var st' := SubmitSpec(st, Some(userId), d, now, true, false);
      st'.uploads == st.uploads && FilePath(userId, now, d.files[0]) in st'.storage
  {
  }

  /** For a valid form, OTHER is replaced by the upper-cased free text, which is never
      empty; any other choice is stored as chosen. */
  lemma StoredChoices(d: FormData)
    requires Valid(d)
    ensures d.course == Other ==> StoredCourse(d) == ToUpper(d.otherCourse.value) && StoredCourse(d) != ""
    ensures d.course != Other ==> StoredCourse(d) == d.course
    ensures d.university == Some(Other) ==> StoredUniversity(d) == Some(ToUpper(d.otherUniversity.value))
    ensures d.university != Some(Other) ==> StoredUniversity(d) == OrNull(d.university)
  {
  }

  /** The path's first segment is the user's id (the storage folder the user owns), and its
      extension is the file name's extension. */
  lemma FilePathShape(userId: string, now: nat, fileName: string)
    requires '/' !in userId
    ensures Split(FilePath(userId, now, fileName), '/')[0] == userId
    ensures AfterLast(FilePath(userId, now, fileName), '.') == AfterLast(fileName, '.')
  {
    var ext := AfterLast(fileName, '.');
    AfterLastSpec(fileName, '.');
    var rest := NatToString(now) + "." + ext;
    assert FilePath(userId, now, fileName) == userId + ['/'] + rest;
    assert FilePath(userId, now, fileName) == (userId + "/" + NatToString(now)) + ['.'] + ext;
    AfterLastAppend(userId + "/" + NatToString(now), ext, '.');
    FirstSplitPiece(userId, rest, '/');
  }

  /** The first piece of splitting `a + sep + x` is `a` when `a` has no separator. */
  lemma FirstSplitPiece(a: string, x: string, sep: char)
    requires sep !in a
    ensures Split(a + [sep] + x, sep)[0] == a
  {
    var parts := Split(a + [sep] + x, sep);
    var p0 := parts[0];
    SeparatorAt(a, x, sep);
    assert Join(parts, sep) == p0 + [sep] + Join(parts[1..], sep);
    FirstPieceEqual(p0, a, Join(parts[1..], sep), x, sep);
  }

  /** The component: storage, the table, the form values and the submitting flag. */
  class Form {
    var storage: map<string, string>
    var uploads: seq<UploadRow>
    var values: FormData
    var isSubmitting: bool

    function State(): FormState
      reads this
    {
      FormState(storage, uploads, values)
    }

    constructor (storage: map<string, string>, uploads: seq<UploadRow>)
      ensures State() == FormState(storage, uploads, Defaults) && !isSubmitting
    {
      this.storage := storage;
      this.uploads := uploads;
      values := Defaults;
      isSubmitting := false;
    }

    method OnSubmit(userId: Option<string>, data: FormData, now: nat, uploadOk: bool, insertOk: bool)
      modifies this
      ensures State() == SubmitSpec(old(State()), userId, data, now, uploadOk, insertOk)
      ensures isSubmitting == (old(isSubmitting) && userId.None?)
    {
      if userId.None? {
        return;
      }
      isSubmitting := true;
      var filePath: Option<string> := None;
      var externalLink := OrNull(data.externalLink);
      if data.typeName == Some("note") && data.files != [] {
        var fileExt := AfterLast(data.files[0], '.');
        var fileName := userId.value + "/" + NatToString(now) + "." + fileExt;
        if !uploadOk {
          isSubmitting := false;
          return;
        }
        storage := storage[fileName := data.files[0]];
        filePath := Some(fileName);
        externalLink := None;
      }
      if !insertOk {
        isSubmitting := false;
        return;
      }
      var row := UploadRow(userId.value, data.title, OrNull(data.description), data.typeName, externalLink, filePath,
                           StoredCourse(data), data.subject, StoredUniversity(data), OrNull(data.creatorName), OrNull(data.platform));
      uploads := uploads + [row];
      values := Defaults;
      isSubmitting := false;
    }
  }
}
