/** The JavaScript string operations the admin tool and the archive page rely on:
    `trim`, `split`, `join`, `includes`, `toLowerCase`, `padStart`, number
    formatting and the default `sort` order, each with the facts the rest of the
    model needs about it. */
module Strings {

  import opened Seqs

  /** The code points `String.prototype.trim` removes: ECMAScript WhiteSpace and
      LineTerminator. */
  predicate IsSpace(c: char) {
    || c == ' ' || c == '\t' || c == '\n' || c == '\r' || c == '\U{B}' || c == '\U{C}'
    || c == '\U{A0}' || c == '\U{1680}' || ('\U{2000}' <= c <= '\U{200A}')
    || c == '\U{2028}' || c == '\U{2029}' || c == '\U{202F}' || c == '\U{205F}'
    || c == '\U{3000}' || c == '\U{FEFF}'
  }

  /** Every character is white space (the empty string included). */
  predicate IsBlank(s: string) {
    forall i :: 0 <= i < |s| ==> IsSpace(s[i])
  }

  /** Neither end is white space. */
  predicate IsTrimmed(s: string) {
    s == [] || (!IsSpace(s[0]) && !IsSpace(s[|s| - 1]))
  }

  /** Drops the leading white space. */
  function TrimStart(s: string): (r: string)
    ensures |r| <= |s| && r == s[|s| - |r|..]
    ensures forall i :: 0 <= i < |s| - |r| ==> IsSpace(s[i])
    ensures r == [] || !IsSpace(r[0])
  {
    if |s| > 0 && IsSpace(s[0]) then TrimStart(s[1..]) else s
  }

  /** Drops the trailing white space. */
  function TrimEnd(s: string): (r: string)
    ensures |r| <= |s| && r == s[..|r|]
    ensures forall i :: |r| <= i < |s| ==> IsSpace(s[i])
    ensures r == [] || !IsSpace(r[|r| - 1])
  {
    if |s| > 0 && IsSpace(s[|s| - 1]) then TrimEnd(s[..|s| - 1]) else s
  }

  /** `String.prototype.trim`: the result has no white space at either end, is
      empty exactly when the input is blank, and leaves a trimmed input alone. */
  function Trim(s: string): (r: string)
    ensures IsTrimmed(r)
    ensures r == [] <==> IsBlank(s)
    ensures IsTrimmed(s) ==> r == s
  {
    if IsTrimmed(s) then s
    else
      var t := TrimStart(s);
      var r := TrimEnd(t);
      assert r != [] ==> r[0] == t[0];
      assert r == [] ==> IsBlank(t);
      assert IsBlank(t) ==> t == [];
      r
  }

  /** Trimming only removes characters. */
  lemma TrimInside(s: string)
    ensures forall c :: c in Trim(s) ==> c in s
  {
    var t := TrimStart(s);
    assert forall c :: c in TrimEnd(t) ==> c in t;
  }

  /** The elements, each trimmed. */
  function TrimEach(xs: seq<string>): (r: seq<string>)
    ensures |r| == |xs|
    ensures forall i :: 0 <= i < |r| ==> r[i] == Trim(xs[i])
  {
    if xs == [] then [] else [Trim(xs[0])] + TrimEach(xs[1..])
  }

  /** `filter(Boolean)` over strings: the non-empty elements, in order. */
  function DropEmpty(xs: seq<string>): (r: seq<string>)
    ensures |r| <= |xs|
    ensures forall i :: 0 <= i < |r| ==> r[i] != ""
    ensures forall x :: x in r <==> x in xs && x != ""
    ensures (forall i :: 0 <= i < |xs| ==> xs[i] != "") ==> r == xs
    ensures IsSubsequence(r, xs)
    ensures forall x :: multiset(r)[x] == if x == "" then 0 else multiset(xs)[x]
  {
    if xs == [] then []
    else
      assert xs == [xs[0]] + xs[1..];
      assert multiset(xs) == multiset{xs[0]} + multiset(xs[1..]);
      if xs[0] == "" then DropEmpty(xs[1..])
      else
        var rest := DropEmpty(xs[1..]);
        assert ([xs[0]] + rest)[1..] == rest;
        assert multiset([xs[0]] + rest) == multiset{xs[0]} + multiset(rest);
        [xs[0]] + rest
  }

  /** Trimmed, non-empty strings: tags, ingredients typed in the editor and
      dictionary definitions all end up of this shape. */
  predicate AllClean(xs: seq<string>) {
    forall i :: 0 <= i < |xs| ==> xs[i] != "" && IsTrimmed(xs[i])
  }

  /** `map(s => s.trim()).filter(Boolean)`: every element is trimmed and
      non-empty, and the trimmed inputs keep their order. */
  function CleanList(xs: seq<string>): (r: seq<string>)
    ensures AllClean(r)
    ensures IsSubsequence(r, TrimEach(xs))
    ensures forall x :: multiset(r)[x] == if x == "" then 0 else multiset(TrimEach(xs))[x]
  {
    if xs == [] then []
    else
      var t := Trim(xs[0]);
      var rest := CleanList(xs[1..]);
      var e := TrimEach(xs);
      assert e != [] && e[0] == t && e[1..] == TrimEach(xs[1..]);
      assert e == [t] + e[1..];
      assert multiset(e) == multiset{t} + multiset(e[1..]);
      assert multiset([t] + rest) == multiset{t} + multiset(rest);
      if t == "" then
        assert IsSubsequence(rest, e) by {
          assert IsSubsequence(rest, e[1..]);
        }
        rest
      else
        var r := [t] + rest;
        assert IsSubsequence(r, e) by {
          assert r[0] == e[0] && r[1..] == rest;
        }
        r
  }

  /** A list already of the cleaned shape is kept as it is. */
  lemma {:induction false} CleanListKeepsClean(xs: seq<string>)
    requires AllClean(xs)
    ensures CleanList(xs) == xs
  {
    if xs != [] {
      assert AllClean(xs[1..]) by {
        forall i | 0 <= i < |xs[1..]| ensures xs[1..][i] != "" && IsTrimmed(xs[1..][i]) {
          assert xs[1..][i] == xs[i + 1];
        }
      }
      CleanListKeepsClean(xs[1..]);
      assert Trim(xs[0]) == xs[0];
      assert [xs[0]] + xs[1..] == xs;
    }
  }

  /** Every non-blank input, trimmed, is in the cleaned list. */
  lemma {:induction false} CleanListHas(xs: seq<string>, i: nat)
    requires i < |xs| && Trim(xs[i]) != ""
    ensures Trim(xs[i]) in CleanList(xs)
  {
    if i > 0 {
      assert xs[1..][i - 1] == xs[i];
      CleanListHas(xs[1..], i - 1);
    }
  }

  /** Everything in the cleaned list is a trimmed input. */
  lemma {:induction false} CleanListFrom(xs: seq<string>, x: string)
    requires x in CleanList(xs)
    ensures exists i :: 0 <= i < |xs| && Trim(xs[i]) == x
  {
    if x != Trim(xs[0]) {
      CleanListFrom(xs[1..], x);
      var i :| 0 <= i < |xs[1..]| && Trim(xs[1..][i]) == x;
      assert Trim(xs[i + 1]) == x;
    }
  }

  /** The cleaned list holds exactly the non-empty trimmed inputs. */
  lemma CleanListMembers(xs: seq<string>)
    ensures forall x :: x in CleanList(xs) <==> x != "" && exists i :: 0 <= i < |xs| && Trim(xs[i]) == x
  {
    forall x ensures x in CleanList(xs) <==> x != "" && exists i :: 0 <= i < |xs| && Trim(xs[i]) == x {
      if x in CleanList(xs) {
        CleanListFrom(xs, x);
      }
      if x != "" && exists i :: 0 <= i < |xs| && Trim(xs[i]) == x {
        var i :| 0 <= i < |xs| && Trim(xs[i]) == x;
        CleanListHas(xs, i);
      }
    }
  }

  /** A character absent from every input element is absent from every cleaned one. */
  lemma CleanListAvoids(xs: seq<string>, c: char)
    requires forall i :: 0 <= i < |xs| ==> c !in xs[i]
    ensures forall i :: 0 <= i < |CleanList(xs)| ==> c !in CleanList(xs)[i]
  {
    var r := CleanList(xs);
    CleanListMembers(xs);
    forall i | 0 <= i < |r| ensures c !in r[i] {
      assert r[i] in r;
      var j :| 0 <= j < |xs| && Trim(xs[j]) == r[i];
      TrimInside(xs[j]);
    }
  }

  /** ASCII `toLowerCase` of one character. */
  function LowerChar(c: char): char {
    if 'A' <= c <= 'Z' then (c as int + 32) as char else c
  }

  /** No ASCII upper-case letter. */
  predicate IsLower(s: string) {
    forall i :: 0 <= i < |s| ==> !('A' <= s[i] <= 'Z')
  }

  /** `toLowerCase`, restricted to ASCII letters: same length, nothing upper-case
      is left, and a lower-case string is unchanged. */
  function Lower(s: string): (r: string)
    ensures |r| == |s| && IsLower(r)
    ensures IsLower(s) ==> r == s
  {
    seq(|s|, i requires 0 <= i < |s| => LowerChar(s[i]))
  }

  lemma LowerAppend(a: string, b: string)
    ensures Lower(a + b) == Lower(a) + Lower(b)
  {
    var l, r := Lower(a + b), Lower(a) + Lower(b);
    assert forall k :: 0 <= k < |l| ==> l[k] == r[k];
  }

  /** Lower-casing never creates or removes white space. */
  lemma LowerCharSpace(c: char)
    ensures IsSpace(LowerChar(c)) <==> IsSpace(c)
  {
  }

  lemma {:induction false} LowerTrimStart(s: string)
    ensures Lower(TrimStart(s)) == TrimStart(Lower(s))
    decreases |s|
  {
    if s != [] {
      LowerCharSpace(s[0]);
      assert Lower(s)[1..] == Lower(s[1..]);
      LowerTrimStart(s[1..]);
    }
  }

  lemma {:induction false} LowerTrimEnd(s: string)
    ensures Lower(TrimEnd(s)) == TrimEnd(Lower(s))
    decreases |s|
  {
    if s != [] {
      var n := |s| - 1;
      assert Lower(s)[..n] == Lower(s[..n]);
      LowerCharSpace(s[n]);
      LowerTrimEnd(s[..n]);
    }
  }

  /** `trim` is `trimStart` followed by `trimEnd`. */
  lemma TrimBothEnds(s: string)
    ensures Trim(s) == TrimEnd(TrimStart(s))
  {
    if IsTrimmed(s) {
      assert TrimStart(s) == s;
      assert TrimEnd(s) == s;
    }
  }

  /** Trimming and lower-casing commute, so `q.trim().toLowerCase()` ignores
      the case of the query. */
  lemma LowerTrim(s: string)
    ensures Lower(Trim(s)) == Trim(Lower(s))
    ensures Lower(Trim(Lower(s))) == Lower(Trim(s))
  {
    TrimBothEnds(s);
    TrimBothEnds(Lower(s));
    LowerTrimStart(s);
    LowerTrimEnd(TrimStart(s));
  }

  /** A search box read as `value.trim().toLowerCase()`. */
  function Query(q: string): string {
    Lower(Trim(q))
  }

  lemma LowerSlice(s: string, i: nat, j: nat)
    requires i <= j <= |s|
    ensures Lower(s)[i..j] == Lower(s[i..j])
  {
    var t, u := Lower(s), Lower(s[i..j]);
    assert forall k :: 0 <= k < j - i ==> t[i + k] == u[k];
  }

  /** `s.split(d)` for a one-character separator: at least one piece, no piece
      holds the separator, and an empty input gives one empty piece. */
  function Split(s: string, d: char): (r: seq<string>)
    ensures |r| >= 1
    ensures forall i :: 0 <= i < |r| ==> d !in r[i]
    ensures s == [] ==> r == [""]
  {
    if s == [] then [""]
    else
      var rest := Split(s[1..], d);
      if s[0] == d then [""] + rest else [[s[0]] + rest[0]] + rest[1..]
  }

  /** One piece more than there are separators: empty pieces are kept. */
  lemma {:induction false} SplitPieces(s: string, d: char)
    ensures |Split(s, d)| == multiset(s)[d] + 1
    decreases |s|
  {
    if s != [] {
      SplitPieces(s[1..], d);
      assert s == [s[0]] + s[1..];
      assert multiset(s) == multiset([s[0]]) + multiset(s[1..]);
    }
  }

  /** `parts.join(sep)`. */
  function Join(parts: seq<string>, sep: string): string {
    if |parts| == 0 then ""
    else if |parts| == 1 then parts[0]
    else parts[0] + sep + Join(parts[1..], sep)
  }

  /** Joining the pieces of a split with the separator gives back the input. */
  lemma {:induction false} JoinSplit(s: string, d: char)
    ensures Join(Split(s, d), [d]) == s
  {
    if s != [] {
      var rest := Split(s[1..], d);
      JoinSplit(s[1..], d);
      if s[0] == d {
        assert Split(s, d) == [""] + rest;
        assert ([""] + rest)[1..] == rest;
      } else {
        var parts := [[s[0]] + rest[0]] + rest[1..];
        assert Split(s, d) == parts;
        if |rest| == 1 {
          assert Join(parts, [d]) == [s[0]] + rest[0];
        } else {
          assert parts[1..] == rest[1..];
          assert Join(parts, [d]) == [s[0]] + rest[0] + [d] + Join(rest[1..], [d]);
        }
      }
    }
  }

  /** A string without the separator is a single piece. */
  lemma {:induction false} SplitWhole(a: string, d: char)
    requires d !in a
    ensures Split(a, d) == [a]
  {
    if a != [] {
      SplitWhole(a[1..], d);
      assert [a[0]] + a[1..] == a;
    }
  }

  /** The first separator ends the first piece. */
  lemma {:induction false} SplitAtFirst(a: string, d: char, b: string)
    requires d !in a
    ensures Split(a + [d] + b, d) == [a] + Split(b, d)
  {
    var s := a + [d] + b;
    if a == [] {
      assert s[0] == d && s[1..] == b;
    } else {
      assert s[0] == a[0] && s[1..] == a[1..] + [d] + b;
      SplitAtFirst(a[1..], d, b);
      assert [a[0]] + a[1..] == a;
    }
  }

  /** Splitting the join of pieces free of the separator gives the pieces back. */
  lemma {:induction false} SplitJoin(ps: seq<string>, d: char)
    requires |ps| >= 1 && forall i :: 0 <= i < |ps| ==> d !in ps[i]
    ensures Split(Join(ps, [d]), d) == ps
  {
    if |ps| == 1 {
      SplitWhole(ps[0], d);
    } else {
      SplitJoin(ps[1..], d);
      SplitAtFirst(ps[0], d, Join(ps[1..], [d]));
      assert [ps[0]] + ps[1..] == ps;
    }
  }

  /** A join starts with its first part and ends with its last. */
  lemma {:induction false} JoinEnds(ps: seq<string>, sep: string)
    requires |ps| >= 1
    ensures var j, last := Join(ps, sep), ps[|ps| - 1];
      && |ps[0]| <= |j| && j[..|ps[0]|] == ps[0]
      && |last| <= |j| && j[|j| - |last|..] == last
  {
    if |ps| > 1 {
      JoinEnds(ps[1..], sep);
      var rest := Join(ps[1..], sep);
      var j, last := Join(ps, sep), ps[|ps| - 1];
      assert j == ps[0] + sep + rest;
      assert ps[1..][|ps[1..]| - 1] == last;
      assert j[|j| - |last|..] == rest[|rest| - |last|..];
    }
  }

  /** Joining clean parts gives a trimmed string. */
  lemma JoinTrimmed(ps: seq<string>, sep: string)
    requires |ps| >= 1 && AllClean(ps)
    ensures Join(ps, sep) != "" && IsTrimmed(Join(ps, sep))
  {
    var j, last := Join(ps, sep), ps[|ps| - 1];
    JoinEnds(ps, sep);
    assert j[0] == j[..|ps[0]|][0] == ps[0][0];
    assert j[|j| - 1] == j[|j| - |last|..][|last| - 1] == last[|last| - 1];
  }

  /** Prefixing the first part prefixes the join. */
  lemma JoinPrefixFirst(p: string, ps: seq<string>, sep: string)
    requires |ps| >= 1
    ensures Join([p + ps[0]] + ps[1..], sep) == p + Join(ps, sep)
  {
    var qs := [p + ps[0]] + ps[1..];
    assert qs[1..] == ps[1..];
  }

  /** The parts of `parts.join(', ')` as `split(',')` cuts them: every part but
      the first carries the space that followed its comma. */
  function Spaced(parts: seq<string>): (r: seq<string>)
    ensures |r| == |parts|
  {
    seq(|parts|, i requires 0 <= i < |parts| => if i == 0 then parts[0] else " " + parts[i])
  }

  lemma {:induction false} JoinSpaced(parts: seq<string>)
    requires |parts| >= 1
    ensures Join(parts, ", ") == Join(Spaced(parts), ",")
  {
    if |parts| > 1 {
      var tail := parts[1..];
      JoinSpaced(tail);
      var sp, st := Spaced(parts), Spaced(tail);
      assert sp[1..] == [" " + st[0]] + st[1..];
      JoinPrefixFirst(" ", st, ",");
      assert Join(sp, ",") == parts[0] + "," + Join(sp[1..], ",");
    }
  }

  /** A trimmed non-empty string behind one space trims back to itself. */
  lemma TrimLeadingSpace(t: string)
    requires t != "" && IsTrimmed(t)
    ensures Trim(" " + t) == t
  {
    var s := " " + t;
    TrimBothEnds(s);
    assert s[1..] == t;
    assert TrimStart(s) == TrimStart(t);
    assert TrimStart(t) == t;
    assert TrimEnd(t) == t;
  }

  /** Every `filter(Boolean)` test passes, so the cleaned list is every input
      trimmed. */
  lemma {:induction false} CleanListAllKept(xs: seq<string>)
    requires forall i :: 0 <= i < |xs| ==> Trim(xs[i]) != ""
    ensures CleanList(xs) == TrimEach(xs)
  {
    if xs != [] {
      forall i | 0 <= i < |xs[1..]| ensures Trim(xs[1..][i]) != "" {
        assert xs[1..][i] == xs[i + 1];
      }
      CleanListAllKept(xs[1..]);
      assert TrimEach(xs) == [Trim(xs[0])] + TrimEach(xs[1..]);
    }
  }

  /** One trailing carriage return removed. */
  function StripCR(p: string): string {
    if |p| > 0 && p[|p| - 1] == '\r' then p[..|p| - 1] else p
  }

  /** `s.split(/\r?\n/)`: the pieces of a split at line feeds, where every piece
      but the last loses the carriage return that belonged to its separator. */
  function SplitLines(s: string): (r: seq<string>)
    ensures |r| == |Split(s, '\n')|
    ensures forall i :: 0 <= i < |r| ==> '\n' !in r[i]
    ensures forall i :: 0 <= i < |r| - 1 ==> r[i] == StripCR(Split(s, '\n')[i])
    ensures r[|r| - 1] == Split(s, '\n')[|r| - 1]
  {
    var ps := Split(s, '\n');
    seq(|ps|, i requires 0 <= i < |ps| => if i < |ps| - 1 then StripCR(ps[i]) else ps[i])
  }

  /** `p` is a prefix of `s`. */
  predicate IsPrefix(p: string, s: string) {
    |p| <= |s| && s[..|p|] == p
  }

  /** `s.includes(q)`. */
  predicate Contains(s: string, q: string)
    decreases |s|
  {
    IsPrefix(q, s) || (|s| > 0 && Contains(s[1..], q))
  }

  /** `q` found at offset `i` of `s` means `s.includes(q)`. */
  lemma {:induction false} ContainsAt(s: string, q: string, i: nat)
    requires i + |q| <= |s| && s[i..i + |q|] == q
    ensures Contains(s, q)
  {
    if i > 0 {
      assert s[1..][i - 1..i - 1 + |q|] == s[i..i + |q|];
      ContainsAt(s[1..], q, i - 1);
    }
  }

  /** A string is found inside any string built around it. */
  lemma ContainsInfix(a: string, q: string, b: string)
    ensures Contains(a + q + b, q)
  {
    var s := a + q + b;
    assert s[|a|..|a| + |q|] == q;
    ContainsAt(s, q, |a|);
  }

  /** `s.includes(q)` has an offset where `q` occurs. */
  lemma {:induction false} ContainsWitness(s: string, q: string) returns (i: nat)
    requires Contains(s, q)
    ensures i + |q| <= |s| && s[i..i + |q|] == q
    decreases |s|
  {
    if IsPrefix(q, s) {
      i := 0;
    } else {
      var j := ContainsWitness(s[1..], q);
      assert s[1..][j..j + |q|] == s[j + 1..j + 1 + |q|];
      i := j + 1;
    }
  }

  /** What is found in a part is found in the whole. */
  lemma ContainsWithin(a: string, s: string, b: string, q: string)
    requires Contains(s, q)
    ensures Contains(a + s + b, q)
  {
    var i := ContainsWitness(s, q);
    var t := a + s + b;
    assert t[|a| + i..|a| + i + |q|] == s[i..i + |q|];
    ContainsAt(t, q, |a| + i);
  }

  /** The empty string is found in every string. */
  lemma ContainsEmpty(s: string)
    ensures Contains(s, "")
  {
    assert IsPrefix("", s);
  }

  /** Every string is found in itself. */
  lemma ContainsSelf(s: string)
    ensures Contains(s, s)
  {
    assert IsPrefix(s, s);
  }

  /** `includes` ignores case when both sides are lower-cased. */
  lemma LowerContains(s: string, q: string)
    requires Contains(s, q)
    ensures Contains(Lower(s), Lower(q))
  {
    var i := ContainsWitness(s, q);
    var t, u := Lower(s), Lower(q);
    assert t[i..i + |u|] == u by {
      LowerSlice(s, i, i + |q|);
    }
    ContainsAt(t, u, i);
  }

  /** What is found in a part of a string is found in the string. */
  lemma ContainsTransitive(s: string, m: string, q: string)
    requires Contains(s, m) && Contains(m, q)
    ensures Contains(s, q)
  {
    var i := ContainsWitness(s, m);
    var j := ContainsWitness(m, q);
    assert s[i + j..i + j + |q|] == q by {
      forall k | 0 <= k < |q| ensures s[i + j + k] == q[k] {
        calc {
          s[i + j + k];
          s[i..i + |m|][j + k];
          m[j + k];
          m[j..j + |q|][k];
        }
      }
    }
    ContainsAt(s, q, i + j);
  }

  /** Each piece can be found in the joined string. */
  lemma {:induction false} JoinHasPart(parts: seq<string>, sep: string, i: nat)
    requires i < |parts|
    ensures Contains(Join(parts, sep), parts[i])
    decreases |parts|
  {
    if |parts| == 1 {
      ContainsSelf(parts[0]);
    } else {
      var rest := Join(parts[1..], sep);
      assert Join(parts, sep) == parts[0] + sep + rest;
      if i == 0 {
        ContainsSelf(parts[0]);
        ContainsWithin([], parts[0], sep + rest, parts[0]);
        assert [] + parts[0] + (sep + rest) == parts[0] + sep + rest;
      } else {
        JoinHasPart(parts[1..], sep, i - 1);
        ContainsWithin(parts[0] + sep, rest, [], parts[i]);
        assert parts[0] + sep + rest + [] == parts[0] + sep + rest;
      }
    }
  }

  /** One decimal digit. */
  function DigitChar(d: nat): char
    requires d < 10
  {
    ('0' as int + d) as char
  }

  /** The number a string of decimal digits denotes, most significant first. */
  function DigitsValue(s: string): nat
    requires forall i :: 0 <= i < |s| ==> '0' <= s[i] <= '9'
  {
    if s == [] then 0 else DigitsValue(s[..|s| - 1]) * 10 + (s[|s| - 1] as int - '0' as int)
  }

  /** `String(n)` for a natural number: the decimal digits of `n`, without
      leading zeros. */
  function NatToString(n: nat): (r: string)
    ensures |r| >= 1 && (n >= 10 ==> |r| >= 2)
    ensures forall i :: 0 <= i < |r| ==> '0' <= r[i] <= '9'
    ensures DigitsValue(r) == n
    ensures n > 0 ==> r[0] != '0'
    ensures n == 0 ==> r == "0"
  {
    if n < 10 then
      assert [DigitChar(n)][..0] == [];
      [DigitChar(n)]
    else
      var r := NatToString(n / 10) + [DigitChar(n % 10)];
      assert r[..|r| - 1] == NatToString(n / 10);
      r
  }

  /** Different numbers print differently. */
  lemma {:induction false} NatToStringInjective(a: nat, b: nat)
    requires NatToString(a) == NatToString(b)
    ensures a == b
  {
    if a >= 10 && b >= 10 {
      var sa, sb := NatToString(a), NatToString(b);
      assert sa[|sa| - 1] == sb[|sb| - 1];
      assert a % 10 == b % 10;
      assert sa[..|sa| - 1] == NatToString(a / 10);
      assert sb[..|sb| - 1] == NatToString(b / 10);
      NatToStringInjective(a / 10, b / 10);
    }
  }

  /** `s.padStart(width, '0')`: at least `width` long, `s` at the end, zeros in
      front. */
  function PadZeros(s: string, width: nat): (r: string)
    ensures |r| == if |s| >= width then |s| else width
    ensures r[|r| - |s|..] == s
    ensures forall i :: 0 <= i < |r| - |s| ==> r[i] == '0'
  {
    if |s| >= width then s else seq(width - |s|, _ => '0') + s
  }

  /** The order `Array.prototype.sort` uses by default: lexicographic by
      character. */
  predicate Less(a: string, b: string) {
    if a == [] then b != []
    else b != [] && (a[0] < b[0] || (a[0] == b[0] && Less(a[1..], b[1..])))
  }

  lemma {:induction false} LessIrreflexive(a: string)
    ensures !Less(a, a)
  {
    if a != [] {
      LessIrreflexive(a[1..]);
    }
  }

  lemma {:induction false} LessTransitive(a: string, b: string, c: string)
    requires Less(a, b) && Less(b, c)
    ensures Less(a, c)
  {
    if a != [] && a[0] == b[0] && b[0] == c[0] {
      LessTransitive(a[1..], b[1..], c[1..]);
    }
  }

  lemma {:induction false} LessTotal(a: string, b: string)
    ensures a == b || Less(a, b) || Less(b, a)
  {
    if a != [] && b != [] && a[0] == b[0] {
      LessTotal(a[1..], b[1..]);
      if a[1..] == b[1..] {
        assert a == [a[0]] + a[1..] && b == [b[0]] + b[1..];
      }
    }
  }

  /** Ascending with no repeats. */
  predicate StrictlySorted(s: seq<string>) {
    forall i, j :: 0 <= i < j < |s| ==> Less(s[i], s[j])
  }

  /** Adds `x` to a strictly sorted list at its place, unless it is there
      already. */
  function Insert(x: string, s: seq<string>): (r: seq<string>)
    requires StrictlySorted(s)
    ensures StrictlySorted(r)
    ensures forall y :: y in r <==> y == x || y in s
  {
    if s == [] then [x]
    else if x == s[0] then s
    else if Less(x, s[0]) then
      assert forall j :: 0 < j < |s| ==> Less(x, s[j]) by {
        forall j | 0 < j < |s| ensures Less(x, s[j]) { LessTransitive(x, s[0], s[j]); }
      }
      [x] + s
    else
      LessTotal(x, s[0]);
      var t := Insert(x, s[1..]);
      assert forall y :: y in t ==> Less(s[0], y);
      [s[0]] + t
  }

  /** `Array.from(new Set(xs)).sort()`: strictly sorted, holding exactly the
      elements of `xs`. */
  function SortedDistinct(xs: seq<string>): (r: seq<string>)
    ensures StrictlySorted(r)
    ensures forall y :: y in r <==> y in xs
  {
    if xs == [] then []
    else
      var r := Insert(xs[|xs| - 1], SortedDistinct(xs[..|xs| - 1]));
      assert forall y :: y in xs <==> y in xs[..|xs| - 1] || y == xs[|xs| - 1] by {
        assert xs == xs[..|xs| - 1] + [xs[|xs| - 1]];
      }
      r
  }

  /** There is only one strictly sorted list of a given set of strings, so the
      result of sorting does not depend on how it is computed. */
  lemma {:induction false} StrictlySortedUnique(a: seq<string>, b: seq<string>)
    requires StrictlySorted(a) && StrictlySorted(b)
    requires forall y :: y in a <==> y in b
    ensures a == b
  {
    assert a != [] ==> a[0] in a && |b| > 0;
    assert b != [] ==> b[0] in b && |a| > 0;
    if a != [] && b != [] {
      assert a[0] == b[0] by {
        if a[0] != b[0] {
          assert a[0] in a && b[0] in b;
          var k :| 0 <= k < |b| && b[k] == a[0];
          var m :| 0 <= m < |a| && a[m] == b[0];
          assert Less(b[0], a[0]) && Less(a[0], b[0]);
          LessTransitive(a[0], b[0], a[0]);
          LessIrreflexive(a[0]);
        }
      }
      forall y ensures y in a[1..] <==> y in b[1..] {
        if y in a[1..] {
          var i :| 1 <= i < |a| && a[i] == y;
          LessIrreflexive(a[0]);
          assert y != b[0];
          assert y in b;
        }
        if y in b[1..] {
          var i :| 1 <= i < |b| && b[i] == y;
          LessIrreflexive(b[0]);
          assert y != a[0];
          assert y in a;
        }
      }
      StrictlySortedUnique(a[1..], b[1..]);
    }
  }

  /** A strictly sorted list holds no element twice. */
  lemma StrictlySortedDistinct(s: seq<string>, i: nat, j: nat)
    requires StrictlySorted(s) && i < j < |s|
    ensures s[i] != s[j]
  {
    LessIrreflexive(s[i]);
  }
}
