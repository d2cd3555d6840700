/** The editor's input handlers: each writes one field of the selected record,
    or adds or removes one row of a worksheet's gallery or file list, or edits
    the comic dictionary, which is created on the first keystroke and dropped
    again when nothing in it has content. */
module Editor {

  import opened Wrappers
  import opened Seqs
  import opened Strings
  import opened Raw
  import opened Schema

  /** One handler firing, with the value of the field it listens to. Row
      handlers carry the index of their row. */
  datatype Edit =
    | SetTitle(value: string)
    | SetTags(value: string)
    | SetDescription(value: string)
    | SetImage(value: string)
    | SetAlt(value: string)
    | SetIngredients(value: string)
    | SetInstructions(value: string)
    | AddImageRow
    | SetImageRow(index: nat, value: string)
    | RemoveImageRow(index: nat)
    | AddFileRow
    | SetFileCaption(index: nat, value: string)
    | SetFileUrl(index: nat, value: string)
    | RemoveFileRow(index: nat)
    | SetTerm(value: string)
    | SetPhonetic(value: string)
    | SetPos(value: string)
    | SetDefinitions(value: string)

  predicate IsDictionaryEdit(e: Edit) {
    e.SetTerm? || e.SetPhonetic? || e.SetPos? || e.SetDefinitions?
  }

  /** The handler exists for the record: only the panel of the record's kind is
      shown, and a row handler belongs to a row that is on screen. */
  predicate Applicable(r: Record, e: Edit) {
    match e
    case SetTitle(_) => true
    case SetTags(_) => true
    case SetDescription(_) => true
    case SetImage(_) => true
    case SetAlt(_) => r.Recipe? || r.Comic?
    case SetIngredients(_) => r.Recipe?
    case SetInstructions(_) => r.Recipe?
    case AddImageRow => r.Worksheet?
    case SetImageRow(i, _) => r.Worksheet? && i < |r.images|
    case RemoveImageRow(i) => r.Worksheet? && i < |r.images|
    case AddFileRow => r.Worksheet?
    case SetFileCaption(i, _) => r.Worksheet? && i < |r.files|
    case SetFileUrl(i, _) => r.Worksheet? && i < |r.files|
    case RemoveFileRow(i) => r.Worksheet? && i < |r.files|
    case SetTerm(_) => r.Comic?
    case SetPhonetic(_) => r.Comic?
    case SetPos(_) => r.Comic?
    case SetDefinitions(_) => r.Comic?
  }

  /** A multi-line text area read as a list: split at line breaks, each line
      trimmed, empty lines dropped. */
  function Lines(value: string): (r: seq<string>)
    ensures AllClean(r)
    ensures forall x :: x in r <==> x != "" && exists i :: 0 <= i < |SplitLines(value)| && Trim(SplitLines(value)[i]) == x
    ensures IsSubsequence(r, TrimEach(SplitLines(value)))
    ensures forall x :: multiset(r)[x] == if x == "" then 0 else multiset(TrimEach(SplitLines(value)))[x]
  {
    CleanListMembers(SplitLines(value));
    CleanList(SplitLines(value))
  }

  /** The editor's list round trip: clean lines without line breaks, shown
      joined by `'\n'` and read back from the text area, are the same lines. */
  lemma LinesRoundTrip(xs: seq<string>)
    requires AllClean(xs)
    requires forall i :: 0 <= i < |xs| ==> '\n' !in xs[i]
    ensures Lines(Join(xs, "\n")) == xs
  {
    if xs == [] {
      assert SplitLines("") == [""];
      assert Trim("") == "";
      assert TrimEach([""]) == [""];
    } else {
      SplitJoin(xs, '\n');
      var ls := SplitLines(Join(xs, "\n"));
      forall i | 0 <= i < |xs| ensures ls[i] == xs[i] {
        assert IsSpace('\r');
      }
      assert ls == xs;
      CleanListKeepsClean(xs);
    }
  }

  /** `ensureComicDictionary`: the record's dictionary, or an empty one. */
  function EnsureDictionary(d: Option<Dictionary>): (r: Dictionary)
    ensures d.Some? ==> r == d.value
    ensures d.None? ==> !HasContent(r)
  {
    match d
    case Some(x) => x
    case None => Dictionary("", "", "", [])
  }

  /** `hasAnything`: a text field with something besides white space, or at
      least one definition. */
  predicate HasContent(d: Dictionary) {
    Trim(d.term) != "" || Trim(d.phonetic) != "" || Trim(d.pos) != "" || |d.definitions| > 0
  }

  /** `cleanupComicDictionary`: a dictionary with no content becomes null. */
  function Cleanup(d: Dictionary): (r: Option<Dictionary>)
    ensures r.Some? <==> HasContent(d)
    ensures r.Some? ==> r.value == d
  {
    if HasContent(d) then Some(d) else None
  }

  /** The dictionary after one sub-field handler: ensure, write, clean up. */
  function EditDictionary(d: Option<Dictionary>, e: Edit): (r: Option<Dictionary>)
    requires IsDictionaryEdit(e)
    ensures r.None? || HasContent(r.value)
    ensures r.Some? ==> r.value == Written(EnsureDictionary(d), e)
  {
    Cleanup(Written(EnsureDictionary(d), e))
  }

  /** `arr.splice(i, 1)`. */
  function RemoveAt<T>(s: seq<T>, i: nat): (r: seq<T>)
    requires i < |s|
    ensures |r| == |s| - 1
    ensures forall j :: 0 <= j < i ==> r[j] == s[j]
    ensures forall j :: i <= j < |r| ==> r[j] == s[j + 1]
  {
    s[..i] + s[i + 1..]
  }

  /** The selected record after a handler. Text fields take the raw input
      value; tags, ingredients and definitions are cleaned as they are typed. */
  function ApplyEdit(r: Record, e: Edit): (r': Record)
    requires Applicable(r, e)
    ensures KindOf(r') == KindOf(r) && r'.id == r.id
  {
    match e
    case SetTitle(v) => r.(title := v)
    case SetTags(v) => r.(tags := NormalizeTags(TagString(v)))
    case SetDescription(v) => r.(description := v)
    case SetImage(v) => r.(image := v)
    case SetAlt(v) => r.(alt := v)
    case SetIngredients(v) => r.(ingredients := Lines(v))
    case SetInstructions(v) => r.(instructions := v)
    case AddImageRow => r.(images := r.images + [""])
    case SetImageRow(i, v) => r.(images := r.images[i := v])
    case RemoveImageRow(i) => r.(images := RemoveAt(r.images, i))
    case AddFileRow => r.(files := r.files + [FileLink("", "")])
    case SetFileCaption(i, v) => r.(files := r.files[i := r.files[i].(caption := v)])
    case SetFileUrl(i, v) => r.(files := r.files[i := r.files[i].(url := v)])
    case RemoveFileRow(i) => r.(files := RemoveAt(r.files, i))
    case SetTerm(_) => r.(dictionary := EditDictionary(r.dictionary, e))
    case SetPhonetic(_) => r.(dictionary := EditDictionary(r.dictionary, e))
    case SetPos(_) => r.(dictionary := EditDictionary(r.dictionary, e))
    case SetDefinitions(_) => r.(dictionary := EditDictionary(r.dictionary, e))
  }

  /** After any dictionary handler the dictionary is null or has content; it
      is null exactly when the written dictionary has none. The handler writes
      its own sub-field of the existing (or a fresh empty) dictionary, cleans
      up, and leaves the rest of the record alone. */
  lemma DictionaryInvariant(r: Record, e: Edit)
    requires Applicable(r, e) && IsDictionaryEdit(e)
    ensures ApplyEdit(r, e) == r.(dictionary := Cleanup(Written(EnsureDictionary(r.dictionary), e)))
    ensures var d := ApplyEdit(r, e).dictionary; d.None? || HasContent(d.value)
    ensures ApplyEdit(r, e).dictionary.None? <==> !HasContent(Written(EnsureDictionary(r.dictionary), e))
  {
  }

  /** The dictionary as the handler writes it, before the clean-up. */
  function Written(x: Dictionary, e: Edit): (r: Dictionary)
    requires IsDictionaryEdit(e)
    ensures e.SetTerm? ==> r.term == e.value
    ensures e.SetPhonetic? ==> r.phonetic == e.value
    ensures e.SetPos? ==> r.pos == e.value
    ensures e.SetDefinitions? ==> r.definitions == Lines(e.value)
    ensures !e.SetTerm? ==> r.term == x.term
    ensures !e.SetPhonetic? ==> r.phonetic == x.phonetic
    ensures !e.SetPos? ==> r.pos == x.pos
    ensures !e.SetDefinitions? ==> r.definitions == x.definitions
  {
    match e
    case SetTerm(v) => x.(term := v)
    case SetPhonetic(v) => x.(phonetic := v)
    case SetPos(v) => x.(pos := v)
    case SetDefinitions(v) => x.(definitions := Lines(v))
  }

  /** Typing into a dictionary field of a comic without a dictionary creates
      one holding only that field, unless the value is blank. */
  lemma TermCreatesDictionary(r: Record, v: string)
    requires r.Comic? && r.dictionary.None?
    ensures ApplyEdit(r, SetTerm(v)).dictionary
      == if Trim(v) == "" then None else Some(Dictionary(v, "", "", []))
  {
    var d := EnsureDictionary(None).(term := v);
    assert ApplyEdit(r, SetTerm(v)).dictionary == Cleanup(d);
    assert HasContent(d) <==> Trim(v) != "" by {
      assert IsTrimmed(d.phonetic) && IsTrimmed(d.pos) && d.definitions == [];
    }
  }

  /** Each plain text handler stores the raw input value in its own field and
      leaves every other field of the record as it was. */
  lemma TextHandlersSetOneField(r: Record, v: string)
    ensures ApplyEdit(r, SetTitle(v)) == r.(title := v)
    ensures ApplyEdit(r, SetDescription(v)) == r.(description := v)
    ensures ApplyEdit(r, SetImage(v)) == r.(image := v)
    ensures r.Recipe? || r.Comic? ==> ApplyEdit(r, SetAlt(v)) == r.(alt := v)
    ensures r.Recipe? ==> ApplyEdit(r, SetInstructions(v)) == r.(instructions := v)
  {
  }

  /** The tag field and the ingredient text area replace their list by the
      cleaned reading of the input and leave every other field alone. */
  lemma ListHandlersSetOneField(r: Record, v: string)
    ensures ApplyEdit(r, SetTags(v)) == r.(tags := NormalizeTags(TagString(v)))
    ensures r.Recipe? ==> ApplyEdit(r, SetIngredients(v)) == r.(ingredients := Lines(v))
  {
    var tags := NormalizeTags(TagString(v));
    assert ApplyEdit(r, SetTags(v)) == r.(tags := tags);
    if r.Recipe? {
      var lines := Lines(v);
      assert ApplyEdit(r, SetIngredients(v)) == r.(ingredients := lines);
    }
  }

  /** A file row's label or URL handler changes that one field of that one
      row. */
  lemma FileFieldTouchesOneRow(r: Record, i: nat, v: string)
    requires r.Worksheet? && i < |r.files|
    ensures var r' := ApplyEdit(r, SetFileCaption(i, v));
      && |r'.files| == |r.files| && r'.files[i] == FileLink(v, r.files[i].url)
      && (forall j :: 0 <= j < |r.files| && j != i ==> r'.files[j] == r.files[j])
      && r' == r.(files := r'.files)
    ensures var r' := ApplyEdit(r, SetFileUrl(i, v));
      && |r'.files| == |r.files| && r'.files[i] == FileLink(r.files[i].caption, v)
      && (forall j :: 0 <= j < |r.files| && j != i ==> r'.files[j] == r.files[j])
      && r' == r.(files := r'.files)
  {
  }

  /** Removing a gallery row drops exactly that row and keeps the rest in
      order. */
  lemma RemoveImageRowKeepsOthers(r: Record, i: nat)
    requires r.Worksheet? && i < |r.images|
    ensures var r' := ApplyEdit(r, RemoveImageRow(i));
      r'.images == r.images[..i] + r.images[i + 1..] && r' == r.(images := r'.images)
  {
  }

  /** Adding a row appends one blank entry and leaves the rest of the record
      as it was. */
  lemma AddRowsAppend(r: Record)
    requires r.Worksheet?
    ensures ApplyEdit(r, AddImageRow).images == r.images + [""]
    ensures ApplyEdit(r, AddFileRow).files == r.files + [FileLink("", "")]
    ensures ApplyEdit(r, AddImageRow) == r.(images := r.images + [""])
    ensures ApplyEdit(r, AddFileRow) == r.(files := r.files + [FileLink("", "")])
  {
  }

  /** A row edit changes exactly the row it belongs to and nothing else in
      the record. */
  lemma RowEditTouchesOneRow(r: Record, i: nat, v: string)
    requires r.Worksheet? && i < |r.images|
    ensures var r' := ApplyEdit(r, SetImageRow(i, v));
      |r'.images| == |r.images| && r'.images[i] == v
      && (forall j :: 0 <= j < |r.images| && j != i ==> r'.images[j] == r.images[j])
      && r' == r.(images := r'.images)
  {
  }

  /** Removing a file row drops exactly that row, keeps the other rows in
      order and leaves the rest of the record as it was. */
  lemma RemoveRowKeepsOthers(r: Record, i: nat)
    requires r.Worksheet? && i < |r.files|
    ensures var r' := ApplyEdit(r, RemoveFileRow(i));
      r'.files == r.files[..i] + r.files[i + 1..] && r' == r.(files := r'.files)
  {
  }

  /** A record the editor can leave behind: every handler applied to a
      canonical record gives a record whose tags, ingredients (when set from
      the text area) and dictionary are clean, but whose text fields may
      carry white space until export re-normalises them. */
  lemma TagsStayClean(r: Record, e: Edit)
    requires Applicable(r, e) && AllClean(r.tags)
    ensures AllClean(ApplyEdit(r, e).tags)
  {
  }
}
