/** The upload manifest: every asset path the records refer to, with a warning
    for each path containing a space, deduplicated, sorted and grouped under
    its folder, with the file name on its own line. */
module Manifest {

  import opened Seqs
  import opened Strings
  import opened Schema
  import opened Grouping

  /** `s.lastIndexOf(c)`: the last position holding `c`, or -1. */
  function LastIndexOf(s: string, c: char): (r: int)
    ensures -1 <= r < |s|
    ensures r >= 0 ==> s[r] == c
    ensures forall j :: r < j < |s| ==> s[j] != c
  {
    if s == [] then -1
    else if s[|s| - 1] == c then |s| - 1
    else LastIndexOf(s[..|s| - 1], c)
  }

  /** `folderOf`: the path up to and including its last `/`, or `''`. */
  function FolderOf(p: string): (r: string)
    ensures r == "" || r[|r| - 1] == '/'
    ensures r == "" <==> '/' !in p
  {
    var i := LastIndexOf(p, '/');
    if i >= 0 then p[..i + 1] else ""
  }

  /** `basename`: the path after its last `/`, or the whole path. */
  function Basename(p: string): (r: string)
    ensures '/' !in r
    ensures |r| <= |p|
  {
    var i := LastIndexOf(p, '/');
    if i >= 0 then p[i + 1..] else p
  }

  /** The folder and the base name put back together give the path. */
  lemma PathSplit(p: string)
    ensures FolderOf(p) + Basename(p) == p
  {
    var i := LastIndexOf(p, '/');
    if i >= 0 {
      assert p == p[..i + 1] + p[i + 1..];
    }
  }

  /** The asset paths of all records, record by record, duplicates kept. */
  function AllPaths(items: seq<Record>): (ps: seq<string>)
    ensures forall i :: 0 <= i < |ps| ==> ps[i] != ""
    decreases |items|
  {
    if items == [] then []
    else
      var n := |items| - 1;
      AllPaths(items[..n]) + ManifestPaths(items[n])
  }

  const SpaceWarning := "URL contains spaces: "

  /** One warning per path occurrence that contains a space, in path order. */
  function SpaceWarnings(ps: seq<string>): (ws: seq<string>)
    decreases |ps|
  {
    if ps == [] then []
    else
      var n := |ps| - 1;
      SpaceWarnings(ps[..n]) + (if ' ' in ps[n] then [SpaceWarning + ps[n]] else [])
  }

  lemma AllPathsSnoc(items: seq<Record>, i: nat)
    requires i < |items|
    ensures AllPaths(items[..i + 1]) == AllPaths(items[..i]) + ManifestPaths(items[i])
  {
    assert items[..i + 1][..i] == items[..i];
  }

  lemma SpaceWarningsSnoc(ps: seq<string>, x: string)
    ensures SpaceWarnings(ps + [x]) == SpaceWarnings(ps) + (if ' ' in x then [SpaceWarning + x] else [])
  {
    assert (ps + [x])[..|ps|] == ps;
  }

  /** `state.items.forEach(...)`: collect every record's paths, skipping empty
      ones, and warn about each occurrence of a path with a space. */
  method GatherPaths(items: seq<Record>) returns (paths: seq<string>, issues: seq<string>)
    ensures paths == AllPaths(items)
    ensures issues == SpaceWarnings(paths)
  {
    paths := [];
    issues := [];
    var i := 0;
    while i < |items|
      invariant 0 <= i <= |items|
      invariant paths == AllPaths(items[..i])
      invariant issues == SpaceWarnings(paths)
    {
      AllPathsSnoc(items, i);
      paths, issues := PushPaths(paths, issues, ManifestPaths(items[i]));
      i := i + 1;
    }
    assert items[..i] == items;
  }

  /** `p.forEach(x => ...)` for one record's paths `p`. */
  method PushPaths(paths0: seq<string>, issues0: seq<string>, p: seq<string>)
    returns (paths: seq<string>, issues: seq<string>)
    requires issues0 == SpaceWarnings(paths0)
    requires forall i :: 0 <= i < |p| ==> p[i] != ""
    ensures paths == paths0 + p
    ensures issues == SpaceWarnings(paths)
  {
    paths, issues := paths0, issues0;
    var j := 0;
    while j < |p|
      invariant 0 <= j <= |p|
      invariant paths == paths0 + p[..j]
      invariant issues == SpaceWarnings(paths)
    {
      var x := p[j];
      SpaceWarningsSnoc(paths, x);
      if x != "" {
        paths := paths + [x];
        if ' ' in x {
          issues := issues + [SpaceWarning + x];
        }
      }
      assert p[..j + 1] == p[..j] + [x];
      j := j + 1;
    }
    assert p[..j] == p;
  }

  /** A warning names exactly one path. */
  lemma SpaceWarningInjective(x: string, y: string)
    requires SpaceWarning + x == SpaceWarning + y
    ensures x == y
  {
    assert x == (SpaceWarning + x)[|SpaceWarning|..];
    assert y == (SpaceWarning + y)[|SpaceWarning|..];
  }

  /** Each occurrence of a path with a space gives exactly one warning naming
      it; a path without a space gives none. */
  lemma {:induction false} WarningPerOccurrence(ps: seq<string>, x: string)
    ensures multiset(SpaceWarnings(ps))[SpaceWarning + x] == if ' ' in x then multiset(ps)[x] else 0
    decreases |ps|
  {
    if ps != [] {
      var n := |ps| - 1;
      WarningPerOccurrence(ps[..n], x);
      assert ps == ps[..n] + [ps[n]];
      if ' ' in ps[n] && SpaceWarning + ps[n] == SpaceWarning + x {
        SpaceWarningInjective(ps[n], x);
      }
      if ps[n] == x {
        assert SpaceWarning + ps[n] == SpaceWarning + x;
      }
    }
  }

  /** The header line of a folder group. */
  function FolderTitle(folder: string): string {
    if folder == "" then "(no folder)" else folder
  }

  function FileLines(ms: seq<string>): (ls: seq<string>)
    ensures |ls| == |ms|
    ensures forall i :: 0 <= i < |ms| ==> ls[i] == "  - " + Basename(ms[i])
  {
    seq(|ms|, i requires 0 <= i < |ms| => "  - " + Basename(ms[i]))
  }

  /** The lines of one folder: its title, one line per file, a blank line. */
  function GroupLines(g: Group<string>): seq<string> {
    [FolderTitle(g.key)] + FileLines(g.members) + [""]
  }

  function AllGroupLines(gs: seq<Group<string>>): seq<string>
    decreases |gs|
  {
    if gs == [] then []
    else
      var n := |gs| - 1;
      AllGroupLines(gs[..n]) + GroupLines(gs[n])
  }

  function WarningLines(issues: seq<string>): (ls: seq<string>)
    ensures |ls| == |issues|
    ensures forall i :: 0 <= i < |issues| ==> ls[i] == "- " + issues[i]
  {
    seq(|issues|, i requires 0 <= i < |issues| => "- " + issues[i])
  }

  lemma WarningLinesSnoc(issues: seq<string>, i: nat)
    requires i < |issues|
    ensures WarningLines(issues[..i + 1]) == WarningLines(issues[..i]) + ["- " + issues[i]]
  {
    var a, b := WarningLines(issues[..i + 1]), WarningLines(issues[..i]) + ["- " + issues[i]];
    assert forall j :: 0 <= j < |a| ==> a[j] == b[j];
  }

  lemma FileLinesSnoc(ms: seq<string>, j: nat)
    requires j < |ms|
    ensures FileLines(ms[..j + 1]) == FileLines(ms[..j]) + ["  - " + Basename(ms[j])]
  {
    var a, b := FileLines(ms[..j + 1]), FileLines(ms[..j]) + ["  - " + Basename(ms[j])];
    assert forall i :: 0 <= i < |a| ==> a[i] == b[i];
  }

  /** The `WARNINGS:` block, present only when there are warnings: a heading,
      one `- ` line per warning, and a blank line. */
  function WarningBlock(issues: seq<string>): (b: seq<string>)
    ensures issues == [] ==> b == []
    ensures issues != [] ==>
      && |b| == |issues| + 2 && b[0] == "WARNINGS:" && b[|b| - 1] == ""
      && forall i :: 0 <= i < |issues| ==> b[1 + i] == "- " + issues[i]
  {
    if issues == [] then [] else ["WARNINGS:"] + WarningLines(issues) + [""]
  }

  const Title := "Mug & Marker Upload Manifest"
  const UploadHeading := "UPLOAD THESE FILES (grouped by folder):"
  const ReplaceHeading := "Then replace the JSON on your website:"
  const Note := "Note: This admin tool cannot upload or modify your server. It only exports files for you to upload."

  /** The four header lines; `generated` is the timestamp. */
  function ManifestHead(k: Kind, generated: string): seq<string> {
    [Title, "Dataset: " + DatasetName(k), "Generated: " + generated, ""]
  }

  /** The four closing lines: where the JSON goes, and the note. */
  function ManifestTail(k: Kind): seq<string> {
    [ReplaceHeading, "  /data/" + Filename(k), "", Note]
  }

  /** The manifest, line by line: the header, the warnings block, the upload
      heading, the folder blocks and the closing lines. */
  function ManifestLines(k: Kind, generated: string, issues: seq<string>, groups: seq<Group<string>>): (ls: seq<string>)
    ensures |ls| >= 10 + |WarningBlock(issues)|
    ensures ls[..4] == ManifestHead(k, generated)
    ensures ls[4..4 + |WarningBlock(issues)|] == WarningBlock(issues)
    ensures ls[4 + |WarningBlock(issues)|] == UploadHeading
    ensures ls[|ls| - 4..] == ManifestTail(k)
  {
    var block := WarningBlock(issues);
    var ls := ManifestHead(k, generated) + block + [UploadHeading, ""] + AllGroupLines(groups) + ManifestTail(k);
    FiveParts(ManifestHead(k, generated), block, [UploadHeading, ""], AllGroupLines(groups), ManifestTail(k));
    ls
  }

  /** Where each of five concatenated parts lies in the whole. */
  lemma FiveParts<T>(a: seq<T>, b: seq<T>, c: seq<T>, d: seq<T>, e: seq<T>)
    ensures var s := a + b + c + d + e;
      && |s| == |a| + |b| + |c| + |d| + |e|
      && s[..|a|] == a
      && s[|a|..|a| + |b|] == b
      && s[|a| + |b|..|a| + |b| + |c|] == c
      && s[|s| - |e|..] == e
  {
    var s := a + b + c + d + e;
    assert s == a + (b + (c + (d + e)));
  }

  function ManifestName(k: Kind): string {
    "upload-manifest-" + DatasetName(k) + ".txt"
  }

  /** The part of `onExportManifest` that fills `lines` by pushing. */
  method BuildLines(k: Kind, generated: string, issues: seq<string>, groups: seq<Group<string>>)
    returns (lines: seq<string>)
    ensures lines == ManifestLines(k, generated, issues, groups)
  {
    ghost var head := [Title, "Dataset: " + DatasetName(k), "Generated: " + generated, ""];
    ghost var tail := [ReplaceHeading, "  /data/" + Filename(k), "", Note];
    lines := [Title, "Dataset: " + DatasetName(k), "Generated: " + generated, ""];
    lines := PushWarnings(lines, issues);
    lines := lines + [UploadHeading, ""];
    lines := PushGroups(lines, groups);
    lines := lines + [ReplaceHeading, "  /data/" + Filename(k), "", Note];
    assert lines == head + WarningBlock(issues) + [UploadHeading, ""] + AllGroupLines(groups) + tail;
  }

  /** `[...groups.keys()].sort().forEach(...)`: every folder in turn. */
  method PushGroups(lines0: seq<string>, groups: seq<Group<string>>) returns (lines: seq<string>)
    ensures lines == lines0 + AllGroupLines(groups)
  {
    lines := lines0;
    var g := 0;
    while g < |groups|
      invariant 0 <= g <= |groups|
      invariant lines == lines0 + AllGroupLines(groups[..g])
    {
      assert AllGroupLines(groups[..g + 1]) == AllGroupLines(groups[..g]) + GroupLines(groups[g]) by {
        assert groups[..g + 1][..g] == groups[..g];
      }
      lines := PushGroup(lines, groups[g]);
      g := g + 1;
    }
    assert groups[..g] == groups;
  }

  /** `if (issues.length) { ... }`: the warnings block. */
  method PushWarnings(lines0: seq<string>, issues: seq<string>) returns (lines: seq<string>)
    ensures lines == lines0 + WarningBlock(issues)
  {
    if issues == [] {
      return lines0;
    }
    lines := lines0 + ["WARNINGS:"];
    lines := PushWarningLines(lines, issues);
    lines := lines + [""];
  }

  /** `issues.forEach(s => lines.push('- ' + s))`. */
  method PushWarningLines(lines0: seq<string>, issues: seq<string>) returns (lines: seq<string>)
    ensures lines == lines0 + WarningLines(issues)
  {
    lines := lines0;
    var i := 0;
    while i < |issues|
      invariant 0 <= i <= |issues|
      invariant lines == lines0 + WarningLines(issues[..i])
    {
      WarningLinesSnoc(issues, i);
      lines := lines + ["- " + issues[i]];
      i := i + 1;
    }
    assert issues[..i] == issues;
  }

  /** One folder: its title, `'  - ' + basename(p)` per path, a blank line. */
  method PushGroup(lines0: seq<string>, group: Group<string>) returns (lines: seq<string>)
    ensures lines == lines0 + GroupLines(group)
  {
    lines := lines0 + [FolderTitle(group.key)];
    var j := 0;
    while j < |group.members|
      invariant 0 <= j <= |group.members|
      invariant lines == lines0 + [FolderTitle(group.key)] + FileLines(group.members[..j])
    {
      FileLinesSnoc(group.members, j);
      lines := lines + ["  - " + Basename(group.members[j])];
      j := j + 1;
    }
    assert group.members[..j] == group.members;
    lines := lines + [""];
  }

  /** `onExportManifest`: the file name and the text written to it. */
  method ExportManifest(k: Kind, items: seq<Record>, generated: string)
    returns (name: string, text: string, ghost groups: seq<Group<string>>)
    ensures name == ManifestName(k)
    ensures StrictlySorted(GroupKeys(groups))
    ensures forall f :: f in GroupKeys(groups) <==> exists x :: x in AllPaths(items) && FolderOf(x) == f
    ensures forall j :: 0 <= j < |groups| ==>
      groups[j].members == Members(SortedDistinct(AllPaths(items)), FolderOf, groups[j].key)
    ensures text == Join(ManifestLines(k, generated, SpaceWarnings(AllPaths(items)), groups), "\n")
  {
    var paths, issues := GatherPaths(items);
    var unique := SortedDistinct(paths);
    var gs := GroupBy(unique, FolderOf);
    forall f ensures f in KeysOf(unique, FolderOf) <==> exists x :: x in paths && FolderOf(x) == f {
      if f in KeysOf(unique, FolderOf) {
        var i :| 0 <= i < |unique| && KeysOf(unique, FolderOf)[i] == f;
        assert unique[i] in paths;
      }
      if exists x :: x in paths && FolderOf(x) == f {
        var x :| x in paths && FolderOf(x) == f;
        var i :| 0 <= i < |unique| && unique[i] == x;
        assert KeysOf(unique, FolderOf)[i] == f;
      }
    }
    var lines := BuildLines(k, generated, issues, gs);
    name := ManifestName(k);
    text := Join(lines, "\n");
    groups := gs;
  }

  /** The members of a folder's group are strictly sorted, so each path is
      listed once. */
  lemma {:induction false} MembersSorted(s: seq<string>, key: string -> string, k: string)
    requires StrictlySorted(s)
    ensures StrictlySorted(Members(s, key, k))
    decreases |s|
  {
    if s != [] {
      var n := |s| - 1;
      var p := s[..n];
      assert StrictlySorted(p);
      MembersSorted(p, key, k);
      MembersWithin(p, key, k);
      var r := Members(p, key, k);
      forall i | 0 <= i < |r| ensures Less(r[i], s[n]) {
        var j :| 0 <= j < |p| && p[j] == r[i];
        assert s[j] == r[i];
      }
    }
  }

  lemma {:induction false} MembersWithin<T>(s: seq<T>, key: T -> string, k: string)
    ensures forall i :: 0 <= i < |Members(s, key, k)| ==> Members(s, key, k)[i] in s
    decreases |s|
  {
    if s != [] {
      var n := |s| - 1;
      MembersWithin(s[..n], key, k);
      assert forall x :: x in s[..n] ==> x in s;
    }
  }

  /** Under a folder's heading, each file line completes the path: the folder
      and the listed base name give back the uploaded path. */
  lemma ListedPathsRoundTrip(s: seq<string>, folder: string, i: nat)
    requires i < |Members(s, FolderOf, folder)|
    ensures folder + Basename(Members(s, FolderOf, folder)[i]) == Members(s, FolderOf, folder)[i]
  {
    PathSplit(Members(s, FolderOf, folder)[i]);
  }
}
