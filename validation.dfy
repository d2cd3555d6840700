/** The per-kind `validate` of the schema registry: a single pass over the
    records that reports missing required fields and repeated ids, in record
    order, as the strings the export banner lists. */
module Validation {

  import opened Strings
  import opened Schema

  /** One finding of `validate`. `who` is how the message names the record:
      its id, or `#n` (1-based position) when the id is blank. */
  datatype Problem =
    | MissingId(pos: nat)
    | DuplicateId(id: string)
    | MissingTitle(who: string)
    | MissingImage(who: string)
    | IngredientsEmpty(who: string)
    | InstructionsEmpty(who: string)

  /** The kind's name at the head of its messages. */
  function Noun(k: Kind): string {
    match k
    case Worksheets => "Worksheet"
    case Recipes => "Recipe"
    case Comics => "Comic"
  }

  /** `it.id || '#' + (i + 1)`, for the record at 0-based position `i`. */
  function Who(r: Record, i: nat): string {
    if r.id != "" then r.id else "#" + NatToString(i + 1)
  }

  /** The banner text of a problem. */
  function Message(k: Kind, p: Problem): (m: string)
    ensures m != [] && (p.DuplicateId? <==> m[0] == 'D')
    ensures p.DuplicateId? ==> m == "Duplicate id: " + p.id
    ensures !p.DuplicateId? ==> |m| > |Noun(k)| && m[..|Noun(k)|] == Noun(k)
  {
    match p
    case MissingId(n) => Noun(k) + " #" + NatToString(n) + ": missing id"
    case DuplicateId(x) => "Duplicate id: " + x
    case MissingTitle(w) => Noun(k) + " " + w + ": missing title"
    case MissingImage(w) =>
      Noun(k) + " " + w + (if k == Worksheets then ": missing thumbnail image" else ": missing image")
    case IngredientsEmpty(w) => Noun(k) + " " + w + ": ingredients empty"
    case InstructionsEmpty(w) => Noun(k) + " " + w + ": instructions empty"
  }

  function Messages(k: Kind, ps: seq<Problem>): (ms: seq<string>)
    ensures |ms| == |ps|
    ensures forall i :: 0 <= i < |ps| ==> ms[i] == Message(k, ps[i])
  {
    seq(|ps|, i requires 0 <= i < |ps| => Message(k, ps[i]))
  }

  lemma MessagesAppend(k: Kind, a: seq<Problem>, b: seq<Problem>)
    ensures Messages(k, a + b) == Messages(k, a) + Messages(k, b)
  {
    var m, m' := Messages(k, a + b), Messages(k, a) + Messages(k, b);
    forall i | 0 <= i < |m| ensures m[i] == m'[i] {
      if i >= |a| {
        assert (a + b)[i] == b[i - |a|];
      }
    }
  }

  /** The ids seen so far, blank ones included (`ids.add(it.id)` runs for every record). */
  function IdsOf(items: seq<Record>): (ids: set<string>)
    ensures forall x :: x in ids <==> exists i :: 0 <= i < |items| && items[i].id == x
  {
    set i | 0 <= i < |items| :: items[i].id
  }

  /** The recipe has an ingredient line that is not the empty string
      (`ingredients.filter(Boolean).length > 0`); a record of another kind has none. */
  predicate HasIngredient(r: Record) {
    r.Recipe? && exists i :: 0 <= i < |r.ingredients| && r.ingredients[i] != ""
  }

  predicate HasInstructions(r: Record) {
    r.Recipe? && r.instructions != ""
  }

  /** The id checks for the record at 0-based position `pos`, given the ids
      of the records before it. */
  function IdProblems(r: Record, pos: nat, seen: set<string>): (ps: seq<Problem>)
    ensures forall i :: 0 <= i < |ps| ==> ps[i].MissingId? || ps[i].DuplicateId?
  {
    (if r.id == "" then [MissingId(pos + 1)] else [])
    + (if r.id != "" && r.id in seen then [DuplicateId(r.id)] else [])
  }

  /** The required-field checks, naming the record as `who`. */
  function FieldProblems(k: Kind, r: Record, who: string): (ps: seq<Problem>)
    ensures forall i :: 0 <= i < |ps| ==> !ps[i].MissingId? && !ps[i].DuplicateId?
  {
    TitleImageProblems(r, who) + RecipeProblems(k, r, who)
  }

  function TitleImageProblems(r: Record, who: string): (ps: seq<Problem>)
    ensures forall i :: 0 <= i < |ps| ==> ps[i].MissingTitle? || ps[i].MissingImage?
  {
    (if r.title == "" then [MissingTitle(who)] else [])
    + (if r.image == "" then [MissingImage(who)] else [])
  }

  function RecipeProblems(k: Kind, r: Record, who: string): (ps: seq<Problem>)
    ensures forall i :: 0 <= i < |ps| ==> ps[i].IngredientsEmpty? || ps[i].InstructionsEmpty?
  {
    if k == Recipes then
      (if !HasIngredient(r) then [IngredientsEmpty(who)] else [])
      + (if !HasInstructions(r) then [InstructionsEmpty(who)] else [])
    else []
  }

  /** The problems reported for the record `r` at 0-based position `pos`, in
      the order the checks run. */
  function RecordProblems(k: Kind, r: Record, pos: nat, seen: set<string>): seq<Problem> {
    IdProblems(r, pos, seen) + FieldProblems(k, r, Who(r, pos))
  }

  /** Everything `validate` reports for `items`, record by record. */
  function Problems(k: Kind, items: seq<Record>): (ps: seq<Problem>)
    ensures items == [] ==> ps == []
    decreases |items|
  {
    if items == [] then []
    else
      var n := |items| - 1;
      Problems(k, items[..n]) + RecordProblems(k, items[n], n, IdsOf(items[..n]))
  }

  /** `DATASETS[k].validate(items)`: the error strings, in the order the loop
      pushes them. The input is a value and is left as it was. */
  method Validate(k: Kind, items: seq<Record>) returns (errors: seq<string>)
    ensures errors == Messages(k, Problems(k, items))
  {
    errors := [];
    var ids: set<string> := {};
    var i := 0;
    while i < |items|
      invariant 0 <= i <= |items|
      invariant ids == IdsOf(items[..i])
      invariant errors == Messages(k, Problems(k, items[..i]))
    {
      var found := CheckRecord(k, items[i], i, ids);
      ProblemsSnoc(k, items, i);
      MessagesAppend(k, Problems(k, items[..i]), RecordProblems(k, items[i], i, ids));
      errors := errors + found;
      ids := ids + {items[i].id};
      i := i + 1;
    }
    assert items[..i] == items;
  }

  lemma ProblemsSnoc(k: Kind, items: seq<Record>, i: nat)
    requires i < |items|
    ensures Problems(k, items[..i + 1])
      == Problems(k, items[..i]) + RecordProblems(k, items[i], i, IdsOf(items[..i]))
    ensures IdsOf(items[..i + 1]) == IdsOf(items[..i]) + {items[i].id}
  {
    var p := items[..i + 1];
    assert p[..i] == items[..i] && p[i] == items[i];
    assert Problems(k, p) == Problems(k, p[..i]) + RecordProblems(k, p[i], i, IdsOf(p[..i]));
    IdsOfSnoc(items, i);
  }

  lemma IdsOfSnoc(items: seq<Record>, i: nat)
    requires i < |items|
    ensures IdsOf(items[..i + 1]) == IdsOf(items[..i]) + {items[i].id}
  {
    var p := items[..i + 1];
    assert forall j :: 0 <= j <= i ==> p[j] == items[j];
  }

  /** The body of the `forEach` callback: the messages pushed for the record
      `it` at 0-based position `i`, given the ids already seen. */
  method CheckRecord(k: Kind, it: Record, i: nat, ids: set<string>) returns (found: seq<string>)
    ensures found == Messages(k, RecordProblems(k, it, i, ids))
  {
    var who := Who(it, i);
    found := CheckId(k, it, i, ids);
    var rest := CheckFields(k, it, who);
    MessagesAppend(k, IdProblems(it, i, ids), FieldProblems(k, it, who));
    found := found + rest;
  }

  /** The id half of the callback: a blank id, then an id seen before. */
  method CheckId(k: Kind, it: Record, i: nat, ids: set<string>) returns (found: seq<string>)
    ensures found == Messages(k, IdProblems(it, i, ids))
  {
    found := [];
    if it.id == "" {
      found := found + [Message(k, MissingId(i + 1))];
    }
    if it.id != "" && it.id in ids {
      found := found + [Message(k, DuplicateId(it.id))];
    }
  }

  /** The field half of the callback: title, image, then the recipe fields. */
  method CheckFields(k: Kind, it: Record, who: string) returns (rest: seq<string>)
    ensures rest == Messages(k, FieldProblems(k, it, who))
  {
    var common := CheckTitleImage(k, it, who);
    var recipe := CheckRecipe(k, it, who);
    MessagesAppend(k, TitleImageProblems(it, who), RecipeProblems(k, it, who));
    rest := common + recipe;
  }

  method CheckTitleImage(k: Kind, it: Record, who: string) returns (rest: seq<string>)
    ensures rest == Messages(k, TitleImageProblems(it, who))
  {
    rest := [];
    if it.title == "" {
      rest := rest + [Message(k, MissingTitle(who))];
    }
    if it.image == "" {
      rest := rest + [Message(k, MissingImage(who))];
    }
  }

  method CheckRecipe(k: Kind, it: Record, who: string) returns (rest: seq<string>)
    ensures rest == Messages(k, RecipeProblems(k, it, who))
  {
    rest := [];
    if k == Recipes {
      if !HasIngredient(it) {
        rest := rest + [Message(k, IngredientsEmpty(who))];
      }
      if !HasInstructions(it) {
        rest := rest + [Message(k, InstructionsEmpty(who))];
      }
    }
  }

  /** The fields a record needs for its kind. */
  predicate Complete(k: Kind, r: Record) {
    r.id != "" && r.title != "" && r.image != ""
    && (k == Recipes ==> HasIngredient(r) && HasInstructions(r))
  }

  /** Non-blank ids are pairwise distinct. */
  predicate DistinctIds(items: seq<Record>) {
    forall i, j :: 0 <= i < j < |items| && items[i].id != "" ==> items[i].id != items[j].id
  }

  lemma RecordProblemsEmpty(k: Kind, r: Record, pos: nat, seen: set<string>)
    ensures RecordProblems(k, r, pos, seen) == [] <==> Complete(k, r) && r.id !in seen
  {
  }

  /** Appending a record keeps non-blank ids distinct exactly when its id is
      blank or new. */
  lemma DistinctIdsSnoc(items: seq<Record>)
    requires items != []
    ensures DistinctIds(items) <==>
      DistinctIds(items[..|items| - 1])
      && (items[|items| - 1].id == "" || items[|items| - 1].id !in IdsOf(items[..|items| - 1]))
  {
    var n := |items| - 1;
    var p := items[..n];
    assert forall i :: 0 <= i < n ==> p[i] == items[i];
  }

  predicate AllComplete(k: Kind, items: seq<Record>) {
    forall i :: 0 <= i < |items| ==> Complete(k, items[i])
  }

  lemma AllCompleteSnoc(k: Kind, items: seq<Record>)
    requires items != []
    ensures AllComplete(k, items) <==>
      AllComplete(k, items[..|items| - 1]) && Complete(k, items[|items| - 1])
  {
    var n := |items| - 1;
    var p := items[..n];
    assert forall i :: 0 <= i < n ==> p[i] == items[i];
  }

  /** `validate` reports nothing exactly when every record is complete and no
      non-blank id repeats. */
  lemma {:induction false} ValidateEmptyIff(k: Kind, items: seq<Record>)
    ensures Problems(k, items) == [] <==> AllComplete(k, items) && DistinctIds(items)
    decreases |items|
  {
    if items != [] {
      var n := |items| - 1;
      var p := items[..n];
      var a := Problems(k, p);
      var b := RecordProblems(k, items[n], n, IdsOf(p));
      assert Problems(k, items) == a + b;
      assert a + b == [] <==> a == [] && b == [] by {
        assert |a + b| == |a| + |b|;
      }
      ValidateEmptyIff(k, p);
      RecordProblemsEmpty(k, items[n], n, IdsOf(p));
      DistinctIdsSnoc(items);
      AllCompleteSnoc(k, items);
    }
  }

  /** How many records carry the id `x`. */
  function CountId(items: seq<Record>, x: string): nat
    decreases |items|
  {
    if items == [] then 0
    else
      var n := |items| - 1;
      CountId(items[..n], x) + (if items[n].id == x then 1 else 0)
  }

  /** How many `Duplicate id: x` problems a list holds. */
  function CountDuplicates(ps: seq<Problem>, x: string): nat {
    if ps == [] then 0
    else (if ps[0] == DuplicateId(x) then 1 else 0) + CountDuplicates(ps[1..], x)
  }

  lemma {:induction false} CountDuplicatesAppend(a: seq<Problem>, b: seq<Problem>, x: string)
    ensures CountDuplicates(a + b, x) == CountDuplicates(a, x) + CountDuplicates(b, x)
  {
    if a == [] {
      assert a + b == b;
    } else {
      assert (a + b)[0] == a[0];
      assert (a + b)[1..] == a[1..] + b;
      CountDuplicatesAppend(a[1..], b, x);
    }
  }

  lemma {:induction false} CountIdSeen(items: seq<Record>, x: string)
    ensures x in IdsOf(items) <==> CountId(items, x) > 0
    decreases |items|
  {
    if items != [] {
      var n := |items| - 1;
      CountIdSeen(items[..n], x);
      assert forall i :: 0 <= i < n ==> items[..n][i] == items[i];
      assert IdsOf(items) == IdsOf(items[..n]) + {items[n].id};
    }
  }

  lemma RecordDuplicates(k: Kind, r: Record, pos: nat, seen: set<string>, x: string)
    ensures CountDuplicates(RecordProblems(k, r, pos, seen), x)
      == (if r.id == x && x != "" && x in seen then 1 else 0)
  {
    var a := if r.id == "" then [MissingId(pos + 1)] else [];
    var b := if r.id != "" && r.id in seen then [DuplicateId(r.id)] else [];
    var c := FieldProblems(k, r, Who(r, pos));
    CountDuplicatesAppend(a + b, c, x);
    CountDuplicatesAppend(a, b, x);
    NoDuplicates(c, x);
  }

  lemma {:induction false} NoDuplicates(ps: seq<Problem>, x: string)
    requires forall i :: 0 <= i < |ps| ==> !ps[i].DuplicateId?
    ensures CountDuplicates(ps, x) == 0
  {
    if ps != [] {
      NoDuplicates(ps[1..], x);
    }
  }

  /** Every repeat occurrence of a non-blank id gives exactly one
      `Duplicate id` message, and a blank id never gives one. */
  lemma {:induction false} DuplicateMessages(k: Kind, items: seq<Record>, x: string)
    ensures CountDuplicates(Problems(k, items), x)
      == if x == "" || CountId(items, x) == 0 then 0 else CountId(items, x) - 1
    decreases |items|
  {
    if items != [] {
      var n := |items| - 1;
      var p := items[..n];
      DuplicateMessages(k, p, x);
      CountDuplicatesAppend(Problems(k, p), RecordProblems(k, items[n], n, IdsOf(p)), x);
      RecordDuplicates(k, items[n], n, IdsOf(p), x);
      CountIdSeen(p, x);
    }
  }

  lemma MissingIdInRecord(k: Kind, r: Record, pos: nat, seen: set<string>, n: nat)
    ensures MissingId(n) in RecordProblems(k, r, pos, seen) <==> n == pos + 1 && r.id == ""
  {
    var f := FieldProblems(k, r, Who(r, pos));
    assert MissingId(n) !in f;
  }

  /** A `missing id` problem names exactly the 1-based positions of blank ids. */
  lemma {:induction false} MissingIdAt(k: Kind, items: seq<Record>, n: nat)
    ensures MissingId(n) in Problems(k, items) <==> 1 <= n <= |items| && items[n - 1].id == ""
    decreases |items|
  {
    if items != [] {
      var m := |items| - 1;
      var p := items[..m];
      MissingIdAt(k, p, n);
      var rp := RecordProblems(k, items[m], m, IdsOf(p));
      assert Problems(k, items) == Problems(k, p) + rp;
      MissingIdInRecord(k, items[m], m, IdsOf(p), n);
      if 1 <= n <= m {
        assert p[n - 1] == items[n - 1];
      }
    }
  }
}
