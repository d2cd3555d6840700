/** The archive page's search: every fetched item gets a tag list and a
    lower-cased search text; the search box, the tag chips and the group
    toggle decide which items are drawn and whether they are drawn in
    sections by first tag. */
module Archive {

  import opened Wrappers
  import opened Seqs
  import opened Strings
  import opened Raw
  import opened Schema
  import opened Grouping

  /** An item as the page keeps it: the fetched object, its coerced `tags`
      and its `_search` text. */
  datatype Entry = Entry(item: RawItem, tags: seq<string>, search: string)

  // ---------- Tags and search text ----------

  /** The `tags` the page works with: an array as it is; a string with
      something besides white space split at commas, each piece trimmed and
      empty pieces kept; anything else no tags. */
  function CoerceTags(t: RawTags): (r: seq<string>)
    ensures t.TagArray? ==> r == t.elems
    ensures t.TagString? && !IsBlank(t.text) ==>
      && |r| == multiset(t.text)[','] + 1
      && forall i :: 0 <= i < |r| ==> IsTrimmed(r[i]) && ',' !in r[i]
    ensures t.TagString? && !IsBlank(t.text) ==>
      && |r| == |Split(t.text, ',')|
      && forall i :: 0 <= i < |r| ==> r[i] == Trim(Split(t.text, ',')[i])
    ensures t.TagOther? || (t.TagString? && IsBlank(t.text)) ==> r == []
  {
    match t
    case TagArray(xs) => xs
    case TagString(s) =>
      if Trim(s) != "" then
        var pieces := Split(s, ',');
        SplitPieces(s, ',');
        forall i | 0 <= i < |pieces| ensures ',' !in Trim(pieces[i]) {
          TrimInside(pieces[i]);
        }
        TrimEach(pieces)
      else []
    case TagOther => []
  }

  /** Trimmed pieces without commas, joined by commas, read back as the same
      tags; empty pieces are kept, as the page keeps them. */
  lemma CoerceTagsRoundTrip(tags: seq<string>)
    requires |tags| >= 1
    requires forall i :: 0 <= i < |tags| ==> IsTrimmed(tags[i]) && ',' !in tags[i]
    requires !IsBlank(Join(tags, ","))
    ensures CoerceTags(TagString(Join(tags, ","))) == tags
  {
    SplitJoin(tags, ',');
  }

  /** The parts `_search` joins, in order: title, description, the
      ingredients when they are an array, instructions, then the tags. */
  function SearchParts(item: RawItem, tags: seq<string>): (r: seq<string>)
    ensures |r| >= 3 + |tags|
    ensures r[0] == OrEmpty(item.title) && r[1] == OrEmpty(item.description)
    ensures r[2..|r| - |tags| - 1] == (match item.ingredients case Some(xs) => xs case None => [])
    ensures r[|r| - |tags| - 1] == OrEmpty(item.instructions)
    ensures r[|r| - |tags|..] == tags
  {
    [OrEmpty(item.title), OrEmpty(item.description)]
    + (match item.ingredients case Some(xs) => xs case None => [])
    + [OrEmpty(item.instructions)]
    + tags
  }

  /** `_search`: the parts joined with spaces, lower-cased. */
  function SearchBlob(item: RawItem, tags: seq<string>): (r: string)
    ensures IsLower(r)
  {
    Lower(Join(SearchParts(item, tags), " "))
  }

  /** The page's copy of one fetched item: the item, its coerced tags, and a
      lower-case search text holding every part lower-cased. */
  function ToEntry(item: RawItem): (r: Entry)
    ensures r.item == item && r.tags == CoerceTags(item.tags)
    ensures IsLower(r.search)
    ensures forall i :: 0 <= i < |SearchParts(item, r.tags)| ==>
      Contains(r.search, Lower(SearchParts(item, r.tags)[i]))
  {
    var tags := CoerceTags(item.tags);
    SearchBlobHasAllParts(item, tags);
    Entry(item, tags, SearchBlob(item, tags))
  }

  lemma SearchBlobHasAllParts(item: RawItem, tags: seq<string>)
    ensures forall i :: 0 <= i < |SearchParts(item, tags)| ==>
      Contains(SearchBlob(item, tags), Lower(SearchParts(item, tags)[i]))
  {
    forall i | 0 <= i < |SearchParts(item, tags)|
      ensures Contains(SearchBlob(item, tags), Lower(SearchParts(item, tags)[i]))
    {
      SearchBlobHasParts(item, tags, i);
    }
  }

  /** Every part, lower-cased, occurs in the search text, so a query equal
      to a title, a description, one ingredient line or one tag finds the
      item; and the search text has no upper-case letter. */
  lemma SearchBlobHasParts(item: RawItem, tags: seq<string>, i: nat)
    requires i < |SearchParts(item, tags)|
    ensures Contains(SearchBlob(item, tags), Lower(SearchParts(item, tags)[i]))
    ensures IsLower(SearchBlob(item, tags))
  {
    var parts := SearchParts(item, tags);
    JoinHasPart(parts, " ", i);
    LowerContains(Join(parts, " "), parts[i]);
  }

  // ---------- The chip list ----------

  /** `tags.map(t => t.toLowerCase())`. */
  function LowerEach(xs: seq<string>): (r: seq<string>)
    ensures |r| == |xs|
    ensures forall i :: 0 <= i < |xs| ==> r[i] == Lower(xs[i])
  {
    seq(|xs|, i requires 0 <= i < |xs| => Lower(xs[i]))
  }

  /** `items.map(i => i.tags.map(t => t.toLowerCase()))`. */
  function TagLists(es: seq<Entry>): (ss: seq<seq<string>>)
    ensures |ss| == |es|
    ensures forall i :: 0 <= i < |es| ==> ss[i] == LowerEach(es[i].tags)
  {
    seq(|es|, i requires 0 <= i < |es| => LowerEach(es[i].tags))
  }

  /** The flattened list holds exactly the lower-cased tags of the entries. */
  lemma FlatTags(es: seq<Entry>)
    ensures forall y :: y in Flatten(TagLists(es)) <==>
      exists i, j :: 0 <= i < |es| && 0 <= j < |es[i].tags| && y == Lower(es[i].tags[j])
  {
    var ss := TagLists(es);
    var flat := Flatten(ss);
    forall y | y in flat
      ensures exists i, j :: 0 <= i < |es| && 0 <= j < |es[i].tags| && y == Lower(es[i].tags[j])
    {
      var i :| 0 <= i < |ss| && y in ss[i];
      var j :| 0 <= j < |ss[i]| && ss[i][j] == y;
      assert y == Lower(es[i].tags[j]);
    }
    forall i, j | 0 <= i < |es| && 0 <= j < |es[i].tags|
      ensures Lower(es[i].tags[j]) in flat
    {
      assert ss[i][j] == Lower(es[i].tags[j]);
    }
  }

  /** `allTags`: the lower-cased tags of all entries, each once, in
      ascending order. */
  function AllTags(es: seq<Entry>): (r: seq<string>)
    ensures StrictlySorted(r)
    ensures forall y :: y in r <==>
      exists i, j :: 0 <= i < |es| && 0 <= j < |es[i].tags| && y == Lower(es[i].tags[j])
  {
    FlatTags(es);
    SortedDistinct(Flatten(TagLists(es)))
  }

  /** `aria-pressed` of each chip: pressed exactly when its text is the
      active tag. */
  function Pressed(chips: seq<string>, activeTag: Option<string>): (r: seq<bool>)
    ensures |r| == |chips|
    ensures forall i :: 0 <= i < |chips| ==> (r[i] <==> activeTag == Some(chips[i]))
  {
    seq(|chips|, i requires 0 <= i < |chips| => activeTag == Some(chips[i]))
  }

  /** The chip handler's new active tag: none when the chip's tag was
      active, otherwise the chip's tag. */
  function Toggle(activeTag: Option<string>, tag: string): (r: Option<string>)
    ensures r.None? <==> activeTag == Some(tag)
    ensures r.Some? ==> r.value == tag
  {
    if activeTag == Some(tag) then None else Some(tag)
  }

  /** After a chip click that chip is pressed exactly when it was not, and
      no other chip is pressed. */
  lemma ClickPressesOnlyThatChip(es: seq<Entry>, activeTag: Option<string>, c: nat)
    requires c < |AllTags(es)|
    ensures var chips := AllTags(es);
      var after := Pressed(chips, Toggle(activeTag, chips[c]));
      && (after[c] <==> !Pressed(chips, activeTag)[c])
      && forall i :: 0 <= i < |chips| && i != c ==> !after[i]
  {
    var chips := AllTags(es);
    forall i | 0 <= i < |chips| && i != c
      ensures chips[i] != chips[c]
    {
      if i < c {
        StrictlySortedDistinct(chips, i, c);
      } else {
        StrictlySortedDistinct(chips, c, i);
      }
    }
  }

  /** Two clicks on the same chip leave it on if it was on, and clear the
      active tag otherwise. */
  lemma ToggleTwice(activeTag: Option<string>, tag: string)
    ensures Toggle(Toggle(activeTag, tag), tag) == (if activeTag == Some(tag) then activeTag else None)
  {
  }

  // ---------- The filter ----------

  /** `i.tags.map(t => t.toLowerCase()).includes(tag)`. */
  predicate HasTag(e: Entry, tag: string) {
    tag in LowerEach(e.tags)
  }

  /** Whether `render` keeps an entry: the trimmed, lower-cased query is
      empty or in its search text, and the active tag is unset, empty, or
      among its lower-cased tags. */
  predicate Shown(e: Entry, q: string, activeTag: Option<string>)
    ensures IsBlank(q) && (activeTag.None? || activeTag == Some("")) ==> Shown(e, q, activeTag)
    ensures Shown(e, q, activeTag) && !IsBlank(q) ==> Contains(e.search, Lower(Trim(q)))
    ensures Shown(e, q, activeTag) && activeTag.Some? && activeTag.value != "" ==>
      exists j :: 0 <= j < |e.tags| && Lower(e.tags[j]) == activeTag.value
  {
    && (Query(q) == "" || Contains(e.search, Query(q)))
    && (activeTag.None? || activeTag.value == "" || HasTag(e, activeTag.value))
  }

  /** `i => i._search.includes(query)`. */
  function QueryTest(query: string): Entry -> bool {
    (e: Entry) => Contains(e.search, query)
  }

  /** `i => i.tags.map(t => t.toLowerCase()).includes(tag)`. */
  function TagTest(tag: string): Entry -> bool {
    e => HasTag(e, tag)
  }

  function ShownTest(q: string, activeTag: Option<string>): Entry -> bool {
    e => Shown(e, q, activeTag)
  }

  /** `render`'s list: the query filter, then the tag filter. */
  function RenderFilter(es: seq<Entry>, q: string, activeTag: Option<string>): (r: seq<Entry>)
    ensures forall i :: 0 <= i < |r| ==> r[i] in es && Shown(r[i], q, activeTag)
    ensures IsBlank(q) && (activeTag.None? || activeTag == Some("")) ==> r == es
  {
    var query := Query(q);
    var byQuery := if query != "" then Filter(es, QueryTest(query)) else es;
    if activeTag.Some? && activeTag.value != "" then Filter(byQuery, TagTest(activeTag.value))
    else byQuery
  }

  /** The two filters in a row are one filter by `Shown`. */
  lemma RenderFilterIsFilter(es: seq<Entry>, q: string, activeTag: Option<string>)
    ensures RenderFilter(es, q, activeTag) == Filter(es, ShownTest(q, activeTag))
  {
    var query := Query(q);
    if activeTag.Some? && activeTag.value != "" {
      if query != "" {
        FilterFilter(es, QueryTest(query), TagTest(activeTag.value), ShownTest(q, activeTag));
      } else {
        FilterCongruent(es, TagTest(activeTag.value), ShownTest(q, activeTag));
      }
    } else if query != "" {
      FilterCongruent(es, QueryTest(query), ShownTest(q, activeTag));
    }
  }

  /** The drawn list keeps the entries' order, holds exactly the entries
      that pass the query and the tag, and is everything when the query is
      blank and no tag is active. */
  lemma RenderFilterSpec(es: seq<Entry>, q: string, activeTag: Option<string>)
    ensures var r := RenderFilter(es, q, activeTag);
      && IsSubsequence(r, es)
      && (forall i :: 0 <= i < |r| ==> Shown(r[i], q, activeTag))
      && (forall i :: 0 <= i < |es| && Shown(es[i], q, activeTag) ==> es[i] in r)
      && (IsBlank(q) && (activeTag.None? || activeTag == Some("")) ==> r == es)
      && (forall x :: multiset(r)[x] == if Shown(x, q, activeTag) then multiset(es)[x] else 0)
  {
    RenderFilterIsFilter(es, q, activeTag);
    forall x ensures multiset(RenderFilter(es, q, activeTag))[x] == if Shown(x, q, activeTag) then multiset(es)[x] else 0 {
      FilterCount(es, ShownTest(q, activeTag), x);
    }
  }

  /** The query ignores case: typing it in capitals shows the same list. */
  lemma RenderFilterIgnoresCase(es: seq<Entry>, q: string, activeTag: Option<string>)
    ensures RenderFilter(es, Lower(q), activeTag) == RenderFilter(es, q, activeTag)
  {
    LowerTrim(q);
    assert Query(Lower(q)) == Query(q);
  }

  /** An item whose title, description, ingredient line, instructions or
      tag holds the query, ignoring case, is drawn when no tag is active. */
  lemma PartHitShown(item: RawItem, q: string, i: nat)
    requires i < |SearchParts(item, CoerceTags(item.tags))|
    requires Contains(Lower(SearchParts(item, CoerceTags(item.tags))[i]), Query(q))
    ensures Shown(ToEntry(item), q, None)
  {
    var tags := CoerceTags(item.tags);
    SearchBlobHasParts(item, tags, i);
    ContainsTransitive(SearchBlob(item, tags), Lower(SearchParts(item, tags)[i]), Query(q));
  }

  /** Every chip finds something: with a blank query, clicking any chip
      draws at least one entry. A blank chip (from a tag string such as
      `"a,,b"`) sets no filter at all, so it draws every entry. */
  lemma ChipNeverEmpty(es: seq<Entry>, q: string, c: nat)
    requires IsBlank(q) && c < |AllTags(es)|
    ensures RenderFilter(es, q, Some(AllTags(es)[c])) != []
  {
    var tag := AllTags(es)[c];
    assert tag in AllTags(es);
    var i, j :| 0 <= i < |es| && 0 <= j < |es[i].tags| && tag == Lower(es[i].tags[j]);
    assert LowerEach(es[i].tags)[j] == tag;
    assert Shown(es[i], q, Some(tag));
    RenderFilterSpec(es, q, Some(tag));
  }

  // ---------- Sections by first tag ----------

  /** `(item.tags[0] || 'untagged').toLowerCase()`. */
  function GroupKey(e: Entry): (k: string)
    ensures k != "" && IsLower(k)
    ensures |e.tags| > 0 && e.tags[0] != "" ==> k == Lower(e.tags[0])
    ensures |e.tags| == 0 || e.tags[0] == "" ==> k == "untagged"
  {
    Lower(if |e.tags| > 0 && e.tags[0] != "" then e.tags[0] else "untagged")
  }

  /** Sections in ascending key order, one per key present, each holding the
      entries with that key in their order. */
  ghost predicate IsGrouping(s: seq<Entry>, gs: seq<Group<Entry>>) {
    && StrictlySorted(GroupKeys(gs))
    && (forall k :: k in GroupKeys(gs) <==> k in KeysOf(s, GroupKey))
    && (forall j :: 0 <= j < |gs| ==> gs[j].members == Members(s, GroupKey, gs[j].key))
  }

  /** `renderGrouped`'s `Map` walked in key order. Every entry is in the one
      section under its own key, sections are never empty, and a section is
      the entries with its key in their order. */
  method RenderGrouped(subset: seq<Entry>) returns (groups: seq<Group<Entry>>)
    ensures IsGrouping(subset, groups)
    ensures forall i :: 0 <= i < |subset| ==>
      exists j :: 0 <= j < |groups| && groups[j].key == GroupKey(subset[i]) && subset[i] in groups[j].members
    ensures forall j, j' :: 0 <= j < |groups| && 0 <= j' < |groups| && groups[j].key == groups[j'].key ==> j == j'
    ensures forall j :: 0 <= j < |groups| ==> groups[j].members != []
    ensures forall j :: 0 <= j < |groups| ==> IsSubsequence(groups[j].members, subset)
  {
    groups := GroupBy(subset, GroupKey);
    forall i | 0 <= i < |subset|
      ensures exists j :: 0 <= j < |groups| && groups[j].key == GroupKey(subset[i]) && subset[i] in groups[j].members
    {
      InOwnGroup(subset, GroupKey, groups, i);
    }
    assert forall i :: 0 <= i < |subset| ==>
      exists j :: 0 <= j < |groups| && groups[j].key == GroupKey(subset[i]) && subset[i] in groups[j].members;
    forall j, j' | 0 <= j < |groups| && 0 <= j' < |groups| && groups[j].key == groups[j'].key
      ensures j == j'
    {
      OneGroupPerKey(groups, j, j');
    }
    forall j | 0 <= j < |groups|
      ensures groups[j].members != []
      ensures IsSubsequence(groups[j].members, subset)
    {
      GroupsNonEmpty(subset, GroupKey, groups, j);
      MembersIsFilter(subset, GroupKey, groups[j].key);
    }
  }

  // ---------- The page state ----------

  /** What `render` draws: cards in list order, or sections. */
  datatype View = Cards(cards: seq<Entry>) | Sections(groups: seq<Group<Entry>>)

  /** The `state` object `{ q, activeTag, groupByTag }` of one archive
      page. */
  class ArchiveState {
    var q: string
    var activeTag: Option<string>
    var groupByTag: bool

    constructor()
      ensures q == "" && activeTag == None && !groupByTag
    {
      q := "";
      activeTag := None;
      groupByTag := false;
    }

    /** The search box's `input` handler. */
    method Search(value: string)
      modifies this`q
      ensures q == value
    {
      q := value;
    }

    /** A chip's `click` handler. */
    method ClickChip(tag: string)
      modifies this`activeTag
      ensures activeTag == Toggle(old(activeTag), tag)
      ensures activeTag == None <==> old(activeTag) == Some(tag)
    {
      activeTag := if activeTag == Some(tag) then None else Some(tag);
    }

    /** The group toggle's `change` handler. */
    method SetGrouping(checked: bool)
      modifies this`groupByTag
      ensures groupByTag == checked
    {
      groupByTag := checked;
    }

    /** The clear button: no query, no active tag, no grouping. */
    method Clear()
      modifies this`q, this`activeTag, this`groupByTag
      ensures q == "" && activeTag == None && !groupByTag
    {
      q := "";
      activeTag := None;
      groupByTag := false;
    }

    /** `render`: the filtered entries as cards, or in sections when grouping
        is on. */
    method Render(es: seq<Entry>) returns (v: View)
      ensures v.Cards? <==> !groupByTag
      ensures v.Cards? ==> v.cards == RenderFilter(es, q, activeTag)
      ensures v.Sections? ==> IsGrouping(RenderFilter(es, q, activeTag), v.groups)
    {
      var shown := RenderFilter(es, q, activeTag);
      if groupByTag {
        var groups := RenderGrouped(shown);
        v := Sections(groups);
      } else {
        v := Cards(shown);
      }
    }
  }
}
