/** The admin tool's document store: the records of one kind, the selected id,
    the name of the last loaded file and the dirty flag, autosaved to a
    single browser-storage slot. Loading, restoring, creating, duplicating,
    deleting, editing and exporting all go through it. */
module Store {

  import opened Wrappers
  import opened Seqs
  import opened Strings
  import opened Raw
  import opened Schema
  import opened Validation
  import opened Editor

  // ---------- The storage slot ----------

  /** The storage entry as it reads back: missing or empty, not JSON, or a
      parsed value. A parsed value that is not an object reads as one with
      every field absent. */
  datatype Slot =
    | Vacant
    | Garbled
    | Stored(dataset: Option<string>, selectedId: Option<string>,
             items: Option<StoredItems>, lastLoadedName: Option<string>)

  /** The `items` array of a stored payload: the text `saveToStorage` wrote
      for a list of records, or any other array found in the entry. */
  datatype StoredItems = Written(records: seq<Record>) | Foreign(elems: seq<RawElement>)

  /** The array `JSON.parse` gives back for stored items. */
  function Elements(s: StoredItems): seq<RawElement> {
    match s
    case Written(records) => SnapshotItems(records)
    case Foreign(elems) => elems
  }

  /** `x || null` on an optional string: the empty string counts as absent. */
  function OrNull(x: Option<string>): Option<string> {
    if x == Some("") then None else x
  }

  /** `elems.map(normalize)`, which throws on a `null` element. */
  function NormalizeAll(k: Kind, elems: seq<RawElement>): (r: Option<seq<Record>>)
    ensures r.Some? <==> forall i :: 0 <= i < |elems| ==> elems[i].ObjectElement?
    ensures r.Some? ==> |r.value| == |elems|
  {
    if forall i :: 0 <= i < |elems| ==> elems[i].ObjectElement? then
      Some(seq(|elems|, i requires 0 <= i < |elems| && elems[i].ObjectElement? => Normalize(k, elems[i].item)))
    else None
  }

  /** The records as `JSON.stringify` writes them and `JSON.parse` reads them
      back. */
  function SnapshotItems(items: seq<Record>): (r: seq<RawElement>)
    ensures |r| == |items|
    ensures forall i :: 0 <= i < |items| ==> r[i] == ObjectElement(ToRaw(items[i]))
  {
    seq(|items|, i requires 0 <= i < |items| => ObjectElement(ToRaw(items[i])))
  }

  /** The records `restoreFromStorage` takes from a slot, or `None` when it
      resets the list: no entry, unparseable JSON, another dataset, no array
      under `items`, or a `null` element that makes `normalize` throw. */
  function RestoredItems(k: Kind, s: Slot): Option<seq<Record>> {
    if s.Stored? && s.dataset == Some(DatasetName(k)) && s.items.Some?
    then NormalizeAll(k, Elements(s.items.value))
    else None
  }

  /** Every record is of kind `k` and has a trimmed id. */
  predicate WellKept(k: Kind, items: seq<Record>) {
    forall i :: 0 <= i < |items| ==> KindOf(items[i]) == k && IsTrimmed(items[i].id)
  }

  lemma WellKeptCons(k: Kind, r: Record, items: seq<Record>)
    requires KindOf(r) == k && IsTrimmed(r.id) && WellKept(k, items)
    ensures WellKept(k, [r] + items)
  {
  }

  /** Each element normalised on its own. */
  lemma NormalizeAllEach(k: Kind, elems: seq<RawElement>, i: nat)
    requires NormalizeAll(k, elems).Some? && i < |elems|
    ensures elems[i].ObjectElement?
    ensures NormalizeAll(k, elems).value[i] == Normalize(k, elems[i].item)
  {
  }

  /** Normalised records are of the kind asked for and have trimmed ids. */
  lemma NormalizeAllValid(k: Kind, elems: seq<RawElement>)
    requires NormalizeAll(k, elems).Some?
    ensures WellKept(k, NormalizeAll(k, elems).value)
  {
    forall i | 0 <= i < |elems|
      ensures KindOf(NormalizeAll(k, elems).value[i]) == k && IsTrimmed(NormalizeAll(k, elems).value[i].id)
    {
      NormalizeAllEach(k, elems, i);
    }
  }

  /** Every record in the map of the records. */
  function NormalizeEach(k: Kind, items: seq<Record>): (r: seq<Record>)
    ensures |r| == |items|
    ensures forall i :: 0 <= i < |items| ==> r[i] == Normalize(k, ToRaw(items[i]))
  {
    seq(|items|, i requires 0 <= i < |items| => Normalize(k, ToRaw(items[i])))
  }

  /** Saving and restoring under the same dataset gives back the records,
      re-normalised; under another dataset it gives nothing. */
  lemma SnapshotRoundTrip(k: Kind, items: seq<Record>, sel: Option<string>, name: Option<string>, k': Kind)
    ensures RestoredItems(k, Stored(Some(DatasetName(k)), sel, Some(Written(items)), name))
      == Some(NormalizeEach(k, items))
    ensures k' != k ==> RestoredItems(k', Stored(Some(DatasetName(k)), sel, Some(Written(items)), name)).None?
  {
    var elems := Elements(Written(items));
    var want := NormalizeEach(k, items);
    assert NormalizeAll(k, elems) == Some(want) by {
      assert forall i :: 0 <= i < |elems| ==> elems[i] == ObjectElement(ToRaw(items[i]));
      var r := NormalizeAll(k, elems);
      assert r.Some? && |r.value| == |want|;
      forall i | 0 <= i < |items|
        ensures r.value[i] == want[i]
      {
        NormalizeAllEach(k, elems, i);
      }
      assert r.value == want;
    }
  }

  /** Re-normalising records that are already canonical and of the right kind
      changes nothing: a restored draft comes back as it was saved. */
  lemma NormalizeEachFixed(k: Kind, items: seq<Record>)
    requires forall i :: 0 <= i < |items| ==> KindOf(items[i]) == k && Canonical(items[i])
    ensures NormalizeEach(k, items) == items
  {
    forall i | 0 <= i < |items|
      ensures NormalizeEach(k, items)[i] == items[i]
    {
      CanonicalIffFixedPoint(items[i]);
    }
  }

  /** Re-normalising the normalised records changes nothing: export, restore
      and load all produce records that are fixed points. */
  lemma NormalizeEachIdempotent(k: Kind, items: seq<Record>)
    ensures NormalizeEach(k, NormalizeEach(k, items)) == NormalizeEach(k, items)
    ensures forall i :: 0 <= i < |items| ==> Canonical(NormalizeEach(k, items)[i])
  {
    forall i | 0 <= i < |items|
      ensures NormalizeEach(k, NormalizeEach(k, items))[i] == NormalizeEach(k, items)[i]
    {
      NormalizeIdempotent(k, ToRaw(items[i]));
    }
  }

  // ---------- Finding records ----------

  /** `items.findIndex(x => x.id === id)`: the first record with that id. */
  function FindById(items: seq<Record>, id: string): (r: Option<nat>)
    ensures r.Some? ==> r.value < |items| && items[r.value].id == id
    ensures r.Some? ==> forall j :: 0 <= j < r.value ==> items[j].id != id
    ensures r.None? ==> forall j :: 0 <= j < |items| ==> items[j].id != id
    decreases |items|
  {
    if items == [] then None
    else if items[0].id == id then Some(0)
    else
      match FindById(items[1..], id)
      case Some(j) => Some(j + 1)
      case None => None
  }

  /** Replacing a record by one with the same id does not move any lookup. */
  lemma {:induction false} FindByIdUpdate(items: seq<Record>, i: nat, x: Record, id: string)
    requires i < |items| && x.id == items[i].id
    ensures FindById(items[i := x], id) == FindById(items, id)
    decreases |items|
  {
    if items[0].id != id && i > 0 {
      assert items[i := x][1..] == items[1..][i - 1 := x];
      FindByIdUpdate(items[1..], i - 1, x, id);
    }
  }

  /** The id selected after a load or a delete: `items[0]?.id || null`. */
  function FirstId(items: seq<Record>): (r: Option<string>)
    ensures r.Some? <==> |items| > 0 && items[0].id != ""
    ensures r.Some? ==> r.value == items[0].id
  {
    if |items| > 0 && items[0].id != "" then Some(items[0].id) else None
  }

  // ---------- Fresh ids ----------

  function KindLetter(k: Kind): char {
    match k
    case Worksheets => 'w'
    case Recipes => 'r'
    case Comics => 'c'
  }

  /** A decimal digit is not white space. */
  lemma DigitNotSpace(c: char)
    requires '0' <= c <= '9'
    ensures !IsSpace(c)
  {
  }

  /** `slugifyId`: the kind's letter, a dash, and the position the record would
      take at the end of the list, padded to three digits. */
  function SlugifyId(k: Kind, count: nat): (r: string)
    ensures r != "" && IsTrimmed(r)
  {
    var n := NatToString(count + 1);
    var r := [KindLetter(k)] + "-" + PadZeros(n, 3);
    assert r[|r| - 1] == n[|n| - 1];
    DigitNotSpace(n[|n| - 1]);
    r
  }

  /** The slug is `w-`, `r-` or `c-` followed by the count plus one, with
      zeros in front up to three digits: `w-001`, `w-010`, `w-1000`. */
  lemma SlugifyIdShape(k: Kind, count: nat)
    ensures var r, n := SlugifyId(k, count), NatToString(count + 1);
      && |r| == 2 + (if |n| >= 3 then |n| else 3)
      && r[0] == KindLetter(k) && r[1] == '-'
      && r[|r| - |n|..] == n
      && forall i :: 2 <= i < |r| - |n| ==> r[i] == '0'
  {
    var n := NatToString(count + 1);
    assert SlugifyId(k, count) == [KindLetter(k)] + "-" + PadZeros(n, 3);
    PaddedShape(KindLetter(k), n);
  }

  lemma PaddedShape(c: char, n: string)
    ensures var r := [c] + "-" + PadZeros(n, 3);
      && |r| == 2 + (if |n| >= 3 then |n| else 3)
      && r[0] == c && r[1] == '-'
      && r[|r| - |n|..] == n
      && forall i :: 2 <= i < |r| - |n| ==> r[i] == '0'
  {
    var digits := PadZeros(n, 3);
    var r := [c] + "-" + digits;
    assert r[2..] == digits && r[0] == c && r[1] == '-';
    assert r[|r| - |n|..] == n by {
      assert r[|r| - |n|..] == r[2..][|digits| - |n|..];
    }
    assert forall i :: 2 <= i < |r| - |n| ==> r[i] == digits[i - 2];
  }

  /** The base `uniqueId` starts from: the trimmed input, or the slug when that
      is empty. */
  function IdBase(k: Kind, items: seq<Record>, base: string): (b: string)
    ensures b != "" && IsTrimmed(b)
  {
    if Trim(base) != "" then Trim(base) else SlugifyId(k, |items|)
  }

  function Suffixed(b: string, n: nat): string {
    b + "-" + NatToString(n)
  }

  lemma SuffixedInjective(b: string, m: nat, n: nat)
    requires Suffixed(b, m) == Suffixed(b, n)
    ensures m == n
  {
    var p := |b| + 1;
    assert Suffixed(b, m)[p..] == NatToString(m);
    assert Suffixed(b, n)[p..] == NatToString(n);
    NatToStringInjective(m, n);
  }

  /** A suffixed id is as trimmed as its base. */
  lemma SuffixedTrimmed(b: string, n: nat)
    requires b != "" && IsTrimmed(b)
    ensures Suffixed(b, n) != "" && IsTrimmed(Suffixed(b, n))
  {
    var s := Suffixed(b, n);
    var d := NatToString(n);
    assert s[0] == b[0];
    assert s[|s| - 1] == d[|d| - 1];
    DigitNotSpace(d[|d| - 1]);
  }

  /** Every suffix from `-2` up to `-(n-1)` is taken. */
  predicate SuffixesTaken(b: string, ids: set<string>, n: nat)
    decreases n
  {
    n <= 2 || (Suffixed(b, n - 1) in ids && SuffixesTaken(b, ids, n - 1))
  }

  lemma {:induction false} SuffixesTakenMeans(b: string, ids: set<string>, n: nat)
    ensures SuffixesTaken(b, ids, n) <==> forall m: nat :: 2 <= m < n ==> Suffixed(b, m) in ids
    decreases n
  {
    if n > 2 {
      SuffixesTakenMeans(b, ids, n - 1);
    }
  }

  /** The id `uniqueId(base)` settles on: the base when no record has it,
      otherwise the base with the least suffix `-2`, `-3`, ... that no record
      has. */
  ghost predicate IsUniqueId(k: Kind, items: seq<Record>, base: string, id: string) {
    var b := IdBase(k, items, base);
    if b !in IdsOf(items) then id == b
    else exists n: nat :: 2 <= n && id == Suffixed(b, n) && SuffixesTaken(b, IdsOf(items), n)
  }

  /** The `while (ids.has(candidate))` loop of `uniqueId`: the least suffix
      from 2 on that is free. It ends because every suffix it passes is a
      different member of the finite set of ids. */
  method FreeSuffix(b: string, ids: set<string>) returns (n: nat)
    ensures 2 <= n && Suffixed(b, n) !in ids && SuffixesTaken(b, ids, n)
  {
    n := 2;
    ghost var taken: set<string> := {};
    while Suffixed(b, n) in ids
      invariant 2 <= n
      invariant SuffixesTaken(b, ids, n)
      invariant forall x :: x in taken ==> exists m: nat :: 2 <= m < n && x == Suffixed(b, m)
      invariant taken <= ids
      decreases ids - taken
    {
      if Suffixed(b, n) in taken {
        var m: nat :| 2 <= m < n && Suffixed(b, n) == Suffixed(b, m);
        SuffixedInjective(b, m, n);
        assert false;
      }
      taken := taken + {Suffixed(b, n)};
      n := n + 1;
    }
  }

  /** `uniqueId`: a non-empty trimmed id that no record has. */
  method UniqueId(k: Kind, items: seq<Record>, base: string) returns (id: string)
    ensures id !in IdsOf(items)
    ensures id != "" && IsTrimmed(id)
    ensures IsUniqueId(k, items, base, id)
  {
    var b := Trim(base);
    if b == "" {
      b := SlugifyId(k, |items|);
    }
    var ids := IdsOf(items);
    if b !in ids {
      return b;
    }
    var n := FreeSuffix(b, ids);
    id := Suffixed(b, n);
    SuffixedTrimmed(b, n);
    assert b == IdBase(k, items, base);
    assert 2 <= n && id == Suffixed(b, n) && SuffixesTaken(b, IdsOf(items), n);
  }

  // ---------- Export ----------

  /** The banner `onExportJson` shows instead of writing a file. */
  function Banner(errors: seq<string>): (b: string)
    ensures |b| >= |BannerHead| && b[..|BannerHead|] == BannerHead
  {
    BannerHead + Join(errors, "\n- ")
  }

  const BannerHead := "Fix these issues before export:\n\n- "

  /** The banner shows every error the validation reported. */
  lemma BannerListsErrors(errors: seq<string>, i: nat)
    requires i < |errors|
    ensures Contains(Banner(errors), errors[i])
  {
    JoinHasPart(errors, "\n- ", i);
    ContainsWithin(BannerHead, Join(errors, "\n- "), [], errors[i]);
    assert BannerHead + Join(errors, "\n- ") + [] == Banner(errors);
  }

  /** A written export: the kind's file name and the records it holds. */
  datatype Export = Export(filename: string, records: seq<Record>)

  /** `onExportJson` on a record list: validate the list as it stands, then
      write the re-normalised records. */
  function ExportOf(k: Kind, items: seq<Record>): (r: Result<Export, string>)
    ensures r.Failure? <==> Problems(k, items) != []
    ensures r.Failure? ==> r.error == Banner(Messages(k, Problems(k, items)))
    ensures r.Success? ==> r.value == Export(Filename(k), NormalizeEach(k, items))
  {
    var ps := Problems(k, items);
    if ps != [] then Failure(Banner(Messages(k, ps)))
    else Success(Export(Filename(k), NormalizeEach(k, items)))
  }

  /** `normalize` keeps an id that is already trimmed. */
  lemma NormalizeKeepsId(k: Kind, r: Record)
    requires IsTrimmed(r.id)
    ensures Normalize(k, ToRaw(r)).id == r.id
  {
    var raw := ToRaw(r);
    assert raw.id == Some(r.id);
    match k
    case Worksheets => assert NormalizeWorksheet(raw).id == Text(raw.id);
    case Recipes => assert NormalizeRecipe(raw).id == Text(raw.id);
    case Comics => assert NormalizeComic(raw).id == Text(raw.id);
  }

  /** Export succeeds exactly when every record is complete and no non-blank
      id repeats. */
  lemma ExportSucceedsIff(k: Kind, items: seq<Record>)
    ensures ExportOf(k, items).Success? <==> AllComplete(k, items) && DistinctIds(items)
  {
    ValidateEmptyIff(k, items);
  }

  /** What a successful export writes is canonical, of the store's kind, and
      unchanged by another round of normalisation; ids keep their value, so
      the written ids are non-empty and distinct too. */
  lemma ExportedRecords(k: Kind, items: seq<Record>)
    requires forall i :: 0 <= i < |items| ==> IsTrimmed(items[i].id)
    requires AllComplete(k, items) && DistinctIds(items)
    ensures var out := NormalizeEach(k, items);
      && (forall i :: 0 <= i < |out| ==> Canonical(out[i]) && KindOf(out[i]) == k && out[i].id != "")
      && DistinctIds(out)
      && NormalizeEach(k, out) == out
  {
    NormalizeEachIdempotent(k, items);
    var out := NormalizeEach(k, items);
    forall i | 0 <= i < |items|
      ensures out[i].id == items[i].id
    {
      NormalizeKeepsId(k, items[i]);
    }
  }

  /** The export as written validates before it normalises: a title of only
      spaces, which the title field stores as typed, passes `!it.title` and
      is written out empty. */
  lemma ExportBlankTitleSlipsThrough()
    ensures var w := Worksheet("w-001", " ", "/a.png", [], "", [], []);
      ExportOf(Worksheets, [w]).Success?
      && ExportOf(Worksheets, [w]).value.records[0].title == ""
  {
    var w := Worksheet("w-001", " ", "/a.png", [], "", [], []);
    assert ExportOf(Worksheets, [w]).Success? by {
      assert AllComplete(Worksheets, [w]) by {
        assert Complete(Worksheets, w);
      }
      assert DistinctIds([w]);
      ExportSucceedsIff(Worksheets, [w]);
    }
    assert NormalizeEach(Worksheets, [w])[0].title == "" by {
      var raw := ToRaw(w);
      assert raw.title == Some(" ");
      assert IsBlank(" ");
      assert Text(raw.title) == "";
      assert NormalizeWorksheet(raw).title == Text(raw.title);
      assert NormalizeEach(Worksheets, [w])[0] == NormalizeWorksheet(raw);
    }
  }

  /** The export the required-field list is for: validate the records that
      will be written. */
  function CheckedExportOf(k: Kind, items: seq<Record>): (r: Result<Export, string>)
    ensures r.Success? ==> r.value.filename == Filename(k)
  {
    var out := NormalizeEach(k, items);
    var ps := Problems(k, out);
    if ps != [] then Failure(Banner(Messages(k, ps)))
    else Success(Export(Filename(k), out))
  }

  /** What the checked export writes has every required field and distinct
      ids, and it agrees with the export as written on canonical records. */
  lemma CheckedExportComplete(k: Kind, items: seq<Record>)
    ensures CheckedExportOf(k, items).Success? <==>
      AllComplete(k, NormalizeEach(k, items)) && DistinctIds(NormalizeEach(k, items))
    ensures CheckedExportOf(k, items).Success? ==>
      CheckedExportOf(k, items).value.records == NormalizeEach(k, items)
    ensures (forall i :: 0 <= i < |items| ==> KindOf(items[i]) == k && Canonical(items[i])) ==>
      CheckedExportOf(k, items) == ExportOf(k, items)
  {
    var out := NormalizeEach(k, items);
    assert CheckedExportOf(k, items).Success? <==> Problems(k, out) == [];
    ValidateEmptyIff(k, out);
    if forall i :: 0 <= i < |items| ==> KindOf(items[i]) == k && Canonical(items[i]) {
      NormalizeEachFixed(k, items);
      assert out == items;
    }
  }

  // ---------- The list filter ----------

  /** The text `renderList` searches: id, title and tags, lower-cased. */
  function ListBlob(r: Record): (b: string)
    ensures IsLower(b)
    ensures |b| == |r.id| + |r.title| + |Join(r.tags, " ")| + 2
  {
    Lower(r.id + " " + r.title + " " + Join(r.tags, " "))
  }

  /** The row filter of `renderList`: a blank query keeps every record,
      otherwise the record's blob must contain the trimmed query, ignoring
      case. */
  predicate ListMatch(r: Record, q: string)
    ensures IsBlank(q) ==> ListMatch(r, q)
    ensures ListMatch(r, q) && !IsBlank(q) ==> Contains(ListBlob(r), Lower(Trim(q)))
  {
    Query(q) == "" || Contains(ListBlob(r), Query(q))
  }

  /** The records `renderList` shows: those whose blob contains the query, in
      list order; a blank query shows them all. */
  function ListFilter(items: seq<Record>, q: string): (r: seq<Record>)
    ensures IsSubsequence(r, items)
    ensures forall i :: 0 <= i < |r| ==> ListMatch(r[i], q)
    ensures forall i :: 0 <= i < |items| && ListMatch(items[i], q) ==> items[i] in r
    ensures IsBlank(q) ==> r == items
    ensures forall x :: multiset(r)[x] == if ListMatch(x, q) then multiset(items)[x] else 0
  {
    assert forall x :: multiset(Filter(items, MatchTest(q)))[x] == if ListMatch(x, q) then multiset(items)[x] else 0 by {
      forall x ensures multiset(Filter(items, MatchTest(q)))[x] == if ListMatch(x, q) then multiset(items)[x] else 0 {
        FilterCount(items, MatchTest(q), x);
      }
    }
    Filter(items, MatchTest(q))
  }

  function MatchTest(q: string): Record -> bool {
    (x: Record) => ListMatch(x, q)
  }

  /** The query ignores case. */
  lemma ListFilterCaseInsensitive(items: seq<Record>, q: string)
    ensures ListFilter(items, Lower(q)) == ListFilter(items, q)
  {
    var p, p' := MatchTest(Lower(q)), MatchTest(q);
    assert forall i :: 0 <= i < |items| ==> p(items[i]) == p'(items[i]) by {
      LowerTrim(q);
      assert Query(Lower(q)) == Query(q);
    }
    FilterCongruent(items, p, p');
  }

  /** A record whose title contains the query, ignoring case, is shown. */
  lemma TitleHitListed(r: Record, q: string)
    requires Contains(Lower(r.title), Query(q))
    ensures ListMatch(r, q)
  {
    var a, b := r.id + " ", " " + Join(r.tags, " ");
    assert r.id + " " + r.title + " " + Join(r.tags, " ") == a + r.title + b;
    LowerAppend(a, r.title);
    LowerAppend(a + r.title, b);
    ContainsWithin(Lower(a), Lower(r.title), Lower(b), Query(q));
  }

  // ---------- New records ----------

  /** `normalize({ id, title: '' })` with the kind's blank defaults. */
  function NewRecord(k: Kind, id: string): (r: Record)
    requires IsTrimmed(id)
    ensures KindOf(r) == k && Canonical(r) && r.id == id
  {
    match k
    case Worksheets => Worksheet(id, "", "", [], "", [], [])
    case Recipes => Recipe(id, "", "", "", "", [], [], "")
    case Comics => Comic(id, "", "", "", "", [], None)
  }

  /** The blank record is `normalize({ id, title: '' })`: every other field
      takes its default, and the defaults `onNewItem` then writes are the
      ones `normalize` already gave. */
  lemma NewRecordNormalized(k: Kind, id: string)
    requires IsTrimmed(id)
    ensures NewRecord(k, id) == Normalize(k, EmptyItem.(id := Some(id), title := Some("")))
    ensures NewRecord(k, id).title == "" && NewRecord(k, id).image == ""
    ensures NewRecord(k, id).description == "" && NewRecord(k, id).tags == []
  {
    assert Trim("") == "" by {
      assert IsTrimmed("");
    }
  }

  /** `onDuplicateItem`'s title: the old one with ` (copy)`, or `(copy)`. */
  function CopyTitle(title: string): (t: string)
    ensures t != "" && |t| > |title| && t[..|title|] == title
    ensures title == "" ==> t == "(copy)"
  {
    if title != "" then title + " (copy)" else "(copy)"
  }

  // ---------- The store ----------

  datatype Parsed = Unparseable | NotArray | ArrayOf(elems: seq<RawElement>)

  /** The file input: nothing chosen, or a file's name and parsed content. */
  datatype Upload = NoFile | Chosen(name: string, content: Parsed)

  datatype LoadOutcome = NothingChosen | Loaded | NotAnArray | CouldNotLoad

  /** What `onLoadFile` does with an upload: nothing without a file; a banner
      for text that is not JSON, for JSON that is not an array and for a
      `null` element; otherwise the records are replaced. */
  function LoadOutcomeOf(k: Kind, u: Upload): (o: LoadOutcome)
    ensures o == NothingChosen <==> u.NoFile?
    ensures o == NotAnArray <==> u.Chosen? && u.content.NotArray?
    ensures o == Loaded <==> u.Chosen? && u.content.ArrayOf? && NormalizeAll(k, u.content.elems).Some?
  {
    match u
    case NoFile => NothingChosen
    case Chosen(_, Unparseable) => CouldNotLoad
    case Chosen(_, NotArray) => NotAnArray
    case Chosen(_, ArrayOf(elems)) => if NormalizeAll(k, elems).Some? then Loaded else CouldNotLoad
  }

  class DocumentStore {
    var kind: Kind
    var items: seq<Record>
    var selectedId: Option<string>
    var lastLoadedName: Option<string>
    var dirty: bool
    /** The storage slot. */
    var slot: Slot
    /** Whether writing the slot succeeds; a failed write is ignored. */
    const storageWritable: bool

    /** Every record is of the store's kind and has a trimmed id: ids come
        only from `normalize` and `uniqueId`, and no handler edits them. */
    ghost predicate Valid()
      reads this`kind, this`items
    {
      WellKept(kind, items)
    }

    /** `getSelected`: the first record with the selected id, if there is a
        non-empty selection. */
    function SelectedIndex(): (r: Option<nat>)
      reads this`items, this`selectedId
      ensures r.Some? ==> selectedId.Some? && r.value < |items| && items[r.value].id == selectedId.value
      ensures r.Some? ==> forall j :: 0 <= j < r.value ==> items[j].id != selectedId.value
      ensures selectedId.Some? && selectedId.value != "" && r.None? ==>
        forall j :: 0 <= j < |items| ==> items[j].id != selectedId.value
      ensures selectedId.None? || selectedId == Some("") ==> r.None?
    {
      if selectedId.None? || selectedId.value == "" then None
      else FindById(items, selectedId.value)
    }

    /** The payload `saveToStorage` writes. */
    function Snapshot(): Slot
      reads this`kind, this`items, this`selectedId, this`lastLoadedName
    {
      Stored(Some(DatasetName(kind)), selectedId, Some(Written(items)), lastLoadedName)
    }

    /** Start-up: the worksheet dataset, restored from the slot, and the
        restored selection saved back. */
    constructor(writable: bool, stored: Slot)
      ensures Valid() && kind == Worksheets && !dirty && storageWritable == writable
      ensures RestoredItems(Worksheets, stored).Some? ==>
        && items == RestoredItems(Worksheets, stored).value
        && selectedId == OrNull(stored.selectedId)
        && lastLoadedName == OrNull(stored.lastLoadedName)
      ensures RestoredItems(Worksheets, stored).None? ==>
        items == [] && selectedId.None? && lastLoadedName.None?
      ensures slot == if writable && |items| > 0 && selectedId.Some? then Snapshot() else stored
    {
      kind := Worksheets;
      items := [];
      selectedId := None;
      lastLoadedName := None;
      dirty := false;
      slot := stored;
      storageWritable := writable;
      new;
      Restore();
      if |items| > 0 && selectedId.Some? {
        Select(selectedId.value);
      }
    }

    /** `saveToStorage`. */
    method Save()
      modifies this`slot
      ensures slot == if storageWritable then Snapshot() else old(slot)
    {
      if storageWritable {
        slot := Snapshot();
      }
    }

    /** `markDirty`. */
    method MarkDirty()
      modifies this`dirty, this`slot
      ensures dirty
      ensures slot == if storageWritable then Snapshot() else old(slot)
    {
      dirty := true;
      Save();
    }

    /** `restoreFromStorage`: take the slot's records when they belong to the
        current dataset, otherwise start empty. */
    method Restore()
      modifies this`items, this`selectedId, this`lastLoadedName
      ensures Valid()
      ensures RestoredItems(kind, slot).Some? ==>
        && items == RestoredItems(kind, slot).value
        && selectedId == OrNull(slot.selectedId)
        && lastLoadedName == OrNull(slot.lastLoadedName)
      ensures RestoredItems(kind, slot).None? ==>
        items == [] && selectedId.None? && lastLoadedName.None?
    {
      var restored := RestoredItems(kind, slot);
      if restored.Some? {
        NormalizeAllValid(kind, Elements(slot.items.value));
        items := restored.value;
        selectedId := OrNull(slot.selectedId);
        lastLoadedName := OrNull(slot.lastLoadedName);
      } else {
        items := [];
        selectedId := None;
        lastLoadedName := None;
      }
    }

    /** The dataset selector: switch kind, clear the selection and restore the
        new kind's draft, which is only there if it was the last one saved. */
    method SwitchKind(k: Kind)
      modifies this`kind, this`items, this`selectedId, this`lastLoadedName
      ensures kind == k && Valid()
      ensures RestoredItems(k, slot).Some? ==>
        && items == RestoredItems(k, slot).value
        && selectedId == OrNull(slot.selectedId)
        && lastLoadedName == OrNull(slot.lastLoadedName)
      ensures RestoredItems(k, slot).None? ==>
        items == [] && selectedId.None? && lastLoadedName.None?
    {
      kind := k;
      selectedId := None;
      Restore();
    }

    /** `selectById`. */
    method Select(id: string)
      modifies this`selectedId, this`slot
      ensures selectedId == Some(id)
      ensures slot == if storageWritable then Snapshot() else old(slot)
    {
      selectedId := Some(id);
      Save();
    }

    /** `onLoadFile`: replace the records by the file's, normalised, select the
        first and save; leave everything as it was when the file cannot be
        read. */
    method Load(u: Upload) returns (outcome: LoadOutcome)
      requires Valid()
      modifies this`items, this`selectedId, this`lastLoadedName, this`dirty, this`slot
      ensures Valid()
      ensures outcome == LoadOutcomeOf(kind, u)
      ensures outcome != Loaded ==>
        && items == old(items) && selectedId == old(selectedId)
        && lastLoadedName == old(lastLoadedName) && dirty == old(dirty) && slot == old(slot)
      ensures outcome == Loaded ==>
        && items == NormalizeAll(kind, u.content.elems).value
        && lastLoadedName == Some(u.name)
        && selectedId == FirstId(items)
        && !dirty
        && slot == if storageWritable then Snapshot() else old(slot)
    {
      match u
      case NoFile => outcome := NothingChosen;
      case Chosen(_, Unparseable) => outcome := CouldNotLoad;
      case Chosen(_, NotArray) => outcome := NotAnArray;
      case Chosen(name, ArrayOf(elems)) =>
        var norm := NormalizeAll(kind, elems);
        if norm.None? {
          outcome := CouldNotLoad;
        } else {
          NormalizeAllValid(kind, elems);
          Replace(name, norm.value);
          outcome := Loaded;
        }
    }

    /** The rest of `onLoadFile` once the file is normalised: the records
        replace the list, the first one is selected, the draft is clean and
        saved. */
    method Replace(name: string, records: seq<Record>)
      requires WellKept(kind, records)
      modifies this`items, this`selectedId, this`lastLoadedName, this`dirty, this`slot
      ensures Valid() && items == records && lastLoadedName == Some(name)
      ensures selectedId == FirstId(records) && !dirty
      ensures slot == if storageWritable then Snapshot() else old(slot)
    {
      items := records;
      lastLoadedName := Some(name);
      selectedId := FirstId(items);
      dirty := false;
      Save();
      if selectedId.Some? {
        Select(selectedId.value);
      }
    }

    /** `onNewItem`: a blank record with a fresh id goes to the top of the
        list and is selected. */
    method New() returns (id: string)
      requires Valid()
      modifies this`items, this`selectedId, this`dirty, this`slot
      ensures Valid()
      ensures id !in IdsOf(old(items))
      ensures IsUniqueId(kind, old(items), SlugifyId(kind, |old(items)|), id)
      ensures IsTrimmed(id) && items == [NewRecord(kind, id)] + old(items)
      ensures selectedId == Some(id) && SelectedIndex() == Some(0)
      ensures dirty && slot == if storageWritable then Snapshot() else old(slot)
    {
      id := UniqueId(kind, items, SlugifyId(kind, |items|));
      var blank := NewRecord(kind, id);
      WellKeptCons(kind, blank, items);
      Prepend(blank);
    }

    /** The common tail of `onNewItem` and `onDuplicateItem`: `unshift` the
        record, select it and mark the draft dirty. */
    method Prepend(r: Record)
      requires r.id != "" && WellKept(kind, [r] + items)
      modifies this`items, this`selectedId, this`dirty, this`slot
      ensures Valid() && items == [r] + old(items)
      ensures selectedId == Some(r.id) && SelectedIndex() == Some(0)
      ensures dirty && slot == if storageWritable then Snapshot() else old(slot)
    {
      items := [r] + items;
      assert FindById(items, r.id) == Some(0);
      selectedId := Some(r.id);
      MarkDirty();
      Select(r.id);
    }

    /** `onDuplicateItem`: a copy of the selected record under a fresh id and
        a `(copy)` title goes to the top of the list and is selected. Without
        a selection nothing happens. */
    method Duplicate() returns (copied: bool)
      requires Valid()
      modifies this`items, this`selectedId, this`dirty, this`slot
      ensures Valid()
      ensures copied <==> old(SelectedIndex()).Some?
      ensures !copied ==>
        items == old(items) && selectedId == old(selectedId) && dirty == old(dirty) && slot == old(slot)
      ensures copied ==>
        var src := old(items)[old(SelectedIndex()).value];
        && |items| == |old(items)| + 1 && items[1..] == old(items)
        && items[0] == src.(id := items[0].id, title := CopyTitle(src.title))
        && items[0].id !in IdsOf(old(items))
        && IsUniqueId(kind, old(items), src.id + "-copy", items[0].id)
        && selectedId == Some(items[0].id) && SelectedIndex() == Some(0)
        && dirty && slot == if storageWritable then Snapshot() else old(slot)
    {
      var idx := SelectedIndex();
      if idx.None? {
        return false;
      }
      var it := items[idx.value];
      var id := UniqueId(kind, items, it.id + "-copy");
      var copy := it.(id := id, title := CopyTitle(it.title));
      WellKeptCons(kind, copy, items);
      Prepend(copy);
      copied := true;
    }

    /** `onDeleteItem`: after confirmation, remove the selected record and
        select the new first one. Without a selection, or when the operator
        declines, nothing happens. */
    method Delete(confirmed: bool) returns (deleted: bool)
      requires Valid()
      modifies this`items, this`selectedId, this`dirty, this`slot
      ensures Valid()
      ensures deleted <==> confirmed && old(SelectedIndex()).Some?
      ensures !deleted ==>
        items == old(items) && selectedId == old(selectedId) && dirty == old(dirty) && slot == old(slot)
      ensures deleted ==>
        var i := old(SelectedIndex()).value;
        && items == old(items)[..i] + old(items)[i + 1..]
        && (forall j :: 0 <= j < i ==> old(items)[j].id != old(items)[i].id)
        && selectedId == FirstId(items)
        && dirty && slot == if storageWritable then Snapshot() else old(slot)
    {
      var sel := SelectedIndex();
      if sel.None? || !confirmed {
        return false;
      }
      var it := items[sel.value];
      var idx := FindById(items, it.id);
      if idx.Some? {
        items := items[..idx.value] + items[idx.value + 1..];
      }
      selectedId := FirstId(items);
      MarkDirty();
      if selectedId.Some? {
        Select(selectedId.value);
      }
      deleted := true;
    }

    /** One editor handler on the selected record: the record is rewritten in
        place, the rest of the list and the selection stay as they were.
        Without a selection nothing happens. */
    method EditSelected(e: Edit)
      requires Valid()
      requires SelectedIndex().Some? ==> Applicable(items[SelectedIndex().value], e)
      modifies this`items, this`dirty, this`slot
      ensures Valid()
      ensures SelectedIndex() == old(SelectedIndex())
      ensures old(SelectedIndex()).None? ==>
        items == old(items) && dirty == old(dirty) && slot == old(slot)
      ensures old(SelectedIndex()).Some? ==>
        var i := old(SelectedIndex()).value;
        && items == old(items)[i := ApplyEdit(old(items)[i], e)]
        && dirty && slot == if storageWritable then Snapshot() else old(slot)
    {
      var idx := SelectedIndex();
      if idx.None? {
        return;
      }
      var i := idx.value;
      var edited := ApplyEdit(items[i], e);
      Update(i, edited);
    }

    /** `Object.assign(it, ...)` on the selected record followed by
        `markDirty`: the record at `i` is replaced by one of the same kind and
        id, so the selection still finds it. */
    method Update(i: nat, x: Record)
      requires Valid() && i < |items| && KindOf(x) == kind && x.id == items[i].id
      modifies this`items, this`dirty, this`slot
      ensures Valid() && items == old(items)[i := x]
      ensures SelectedIndex() == old(SelectedIndex())
      ensures dirty && slot == if storageWritable then Snapshot() else old(slot)
    {
      if selectedId.Some? {
        FindByIdUpdate(items, i, x, selectedId.value);
      }
      items := items[i := x];
      MarkDirty();
    }

    /** `onExportJson`: the banner of every problem, or the file to write.
        The store itself does not change. */
    method ExportJson() returns (r: Result<Export, string>)
      ensures r == ExportOf(kind, items)
      ensures r.Failure? <==> !(AllComplete(kind, items) && DistinctIds(items))
    {
      var errors := Validate(kind, items);
      ValidateEmptyIff(kind, items);
      if |errors| > 0 {
        r := Failure(Banner(errors));
      } else {
        r := Success(Export(Filename(kind), NormalizeEach(kind, items)));
      }
    }
  }
}
