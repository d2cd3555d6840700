/** Grouping a list by a string key into a `Map` of arrays, then walking the
    keys in sorted order: the manifest groups paths by folder, the archive page
    groups items by their first tag. */
module Grouping {

  import opened Seqs
  import opened Strings

  datatype Group<T> = Group(key: string, members: seq<T>)

  /** The elements of `s` under key `k`, in their order in `s`: the array the
      `Map` holds for `k` once every element has been pushed. */
  function Members<T>(s: seq<T>, key: T -> string, k: string): (r: seq<T>)
    ensures forall i :: 0 <= i < |r| ==> key(r[i]) == k
    decreases |s|
  {
    if s == [] then []
    else
      var n := |s| - 1;
      Members(s[..n], key, k) + (if key(s[n]) == k then [s[n]] else [])
  }

  lemma MembersSnoc<T>(s: seq<T>, x: T, key: T -> string, k: string)
    ensures Members(s + [x], key, k) == Members(s, key, k) + (if key(x) == k then [x] else [])
  {
    assert (s + [x])[..|s|] == s;
  }

  /** A group holds exactly the elements with its key, in the order of `s`:
      it is `s.filter(x => key(x) === k)`. */
  lemma {:induction false} MembersIsFilter<T>(s: seq<T>, key: T -> string, k: string)
    ensures Members(s, key, k) == Filter(s, x => key(x) == k)
    decreases |s|
  {
    if s != [] {
      var n := |s| - 1;
      var p := x => key(x) == k;
      MembersIsFilter(s[..n], key, k);
      assert s == s[..n] + [s[n]];
      FilterAppend(s[..n], [s[n]], p);
      assert Filter([s[n]], p) == if key(s[n]) == k then [s[n]] else [] by {
        assert [s[n]][1..] == [];
      }
    }
  }

  /** The key of every element, in order. */
  function KeysOf<T>(s: seq<T>, key: T -> string): (ks: seq<string>)
    ensures |ks| == |s|
    ensures forall i :: 0 <= i < |s| ==> ks[i] == key(s[i])
  {
    seq(|s|, i requires 0 <= i < |s| => key(s[i]))
  }

  function GroupKeys<T>(gs: seq<Group<T>>): (ks: seq<string>)
    ensures |ks| == |gs|
    ensures forall i :: 0 <= i < |gs| ==> ks[i] == gs[i].key
  {
    seq(|gs|, i requires 0 <= i < |gs| => gs[i].key)
  }

  /** The `Map` after all of `s` is pushed: a key for each key present, and
      under it that key's members. */
  ghost predicate IsIndex<T>(s: seq<T>, key: T -> string, m: map<string, seq<T>>) {
    && (forall k :: k in m <==> k in KeysOf(s, key))
    && (forall k :: k in m ==> m[k] == Members(s, key, k))
  }

  /** The `forEach` that fills the `Map`: each element is pushed onto the array
      of its key, the array created on the key's first appearance. */
  method Index<T>(s: seq<T>, key: T -> string) returns (m: map<string, seq<T>>)
    ensures IsIndex(s, key, m)
  {
    m := map[];
    var i := 0;
    while i < |s|
      invariant 0 <= i <= |s|
      invariant IsIndex(s[..i], key, m)
    {
      ghost var before := m;
      var k := key(s[i]);
      if k !in m {
        m := m[k := []];
      }
      m := m[k := m[k] + [s[i]]];
      assert m == before[k := (if k in before then before[k] else []) + [s[i]]];
      IndexStep(s, i, key, before);
      i := i + 1;
    }
    assert s[..i] == s;
  }

  /** Pushing the next element keeps the map an index of the longer prefix. */
  lemma IndexStep<T>(s: seq<T>, i: nat, key: T -> string, m: map<string, seq<T>>)
    requires i < |s| && IsIndex(s[..i], key, m)
    ensures IsIndex(s[..i + 1], key, m[key(s[i]) := (if key(s[i]) in m then m[key(s[i])] else []) + [s[i]]])
  {
    var k := key(s[i]);
    var p := s[..i + 1];
    assert p == s[..i] + [s[i]];
    assert p[..i] == s[..i];
    assert KeysOf(p, key) == KeysOf(s[..i], key) + [k];
    if k !in m {
      MembersAbsent(s[..i], key, k);
    }
  }

  lemma {:induction false} MembersAbsent<T>(s: seq<T>, key: T -> string, k: string)
    requires k !in KeysOf(s, key)
    ensures Members(s, key, k) == []
    decreases |s|
  {
    if s != [] {
      var n := |s| - 1;
      assert KeysOf(s[..n], key) == KeysOf(s, key)[..n];
      MembersAbsent(s[..n], key, k);
    }
  }

  lemma GroupKeysSnoc<T>(gs: seq<Group<T>>, g: Group<T>)
    ensures GroupKeys(gs + [g]) == GroupKeys(gs) + [g.key]
  {
    var a, b := GroupKeys(gs + [g]), GroupKeys(gs) + [g.key];
    assert forall i :: 0 <= i < |a| ==> a[i] == b[i];
  }

  lemma PrefixSnoc<T>(s: seq<T>, j: nat)
    requires j < |s|
    ensures s[..j + 1] == s[..j] + [s[j]]
  {
  }

  /** `[...groups.keys()].sort()` walked in order: one group per key present,
      by ascending key, each holding the elements under that key. */
  method GroupBy<T>(s: seq<T>, key: T -> string) returns (groups: seq<Group<T>>)
    ensures StrictlySorted(GroupKeys(groups))
    ensures forall k :: k in GroupKeys(groups) <==> k in KeysOf(s, key)
    ensures forall j :: 0 <= j < |groups| ==> groups[j].members == Members(s, key, groups[j].key)
  {
    var m := Index(s, key);
    var keys := SortedDistinct(KeysOf(s, key));
    groups := [];
    var j := 0;
    while j < |keys|
      invariant 0 <= j <= |keys|
      invariant GroupKeys(groups) == keys[..j]
      invariant forall g :: 0 <= g < |groups| ==> groups[g].members == Members(s, key, groups[g].key)
    {
      var k := keys[j];
      assert k in KeysOf(s, key);
      var g := Group(k, m[k]);
      assert g.members == Members(s, key, g.key);
      GroupKeysSnoc(groups, g);
      assert keys[..j + 1] == keys[..j] + [k] by {
        PrefixSnoc(keys, j);
      }
      groups := groups + [g];
      j := j + 1;
    }
    assert GroupKeys(groups) == keys by {
      assert keys[..j] == keys;
    }
  }

  /** Every element is among the members under its own key. */
  lemma {:induction false} MembersHas<T>(s: seq<T>, key: T -> string, i: nat)
    requires i < |s|
    ensures s[i] in Members(s, key, key(s[i]))
    decreases |s|
  {
    var n := |s| - 1;
    if i < n {
      MembersHas(s[..n], key, i);
    }
  }

  /** Every element lands in the group under its own key... */
  lemma InOwnGroup<T>(s: seq<T>, key: T -> string, groups: seq<Group<T>>, i: nat)
    requires i < |s|
    requires forall k :: k in GroupKeys(groups) <==> k in KeysOf(s, key)
    requires forall j :: 0 <= j < |groups| ==> groups[j].members == Members(s, key, groups[j].key)
    ensures exists j :: 0 <= j < |groups| && groups[j].key == key(s[i]) && s[i] in groups[j].members
  {
    var k := key(s[i]);
    assert k in KeysOf(s, key) by {
      assert KeysOf(s, key)[i] == k;
    }
    var j :| 0 <= j < |groups| && GroupKeys(groups)[j] == k;
    MembersHas(s, key, i);
    assert groups[j].members == Members(s, key, k);
    assert groups[j].key == k && s[i] in groups[j].members;
  }

  /** ...and there is only one group under each key. */
  lemma OneGroupPerKey<T>(groups: seq<Group<T>>, j: nat, j': nat)
    requires StrictlySorted(GroupKeys(groups))
    requires j < |groups| && j' < |groups| && groups[j].key == groups[j'].key
    ensures j == j'
  {
    if j < j' {
      StrictlySortedDistinct(GroupKeys(groups), j, j');
    } else if j' < j {
      StrictlySortedDistinct(GroupKeys(groups), j', j);
    }
  }

  /** No group is empty. */
  lemma GroupsNonEmpty<T>(s: seq<T>, key: T -> string, groups: seq<Group<T>>, j: nat)
    requires j < |groups|
    requires forall k :: k in GroupKeys(groups) <==> k in KeysOf(s, key)
    requires forall j :: 0 <= j < |groups| ==> groups[j].members == Members(s, key, groups[j].key)
    ensures groups[j].members != []
  {
    assert GroupKeys(groups)[j] in GroupKeys(groups);
    var i :| 0 <= i < |s| && KeysOf(s, key)[i] == groups[j].key;
    MembersHas(s, key, i);
  }
}
