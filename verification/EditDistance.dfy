/** Edit scripts, the edit distance they define, and the two-row rolling loop that computes it. */
module EditDistance {

  /** One step of an edit script, reading its source string from left to right. */
  datatype Edit =
    | Keep(c: char)
    | Substitute(from: char, to: char)
    | Insert(inserted: char)
    | Delete(deleted: char)
  {
    function Read(): string {
      match this
      case Keep(c) => [c]
      case Substitute(from, _) => [from]
      case Insert(_) => []
      case Delete(c) => [c]
    }

    function Written(): string {
      match this
      case Keep(c) => [c]
      case Substitute(_, to) => [to]
      case Insert(c) => [c]
      case Delete(_) => []
    }

    function Cost(): nat {
      if Keep? then 0 else 1
    }

    function Inverse(): Edit {
      match this
      case Keep(c) => Keep(c)
      case Substitute(from, to) => Substitute(to, from)
      case Insert(c) => Delete(c)
      case Delete(c) => Insert(c)
    }
  }

  /** A script, built by adding one more edit at its right end. */
  datatype Script = Start | Then(before: Script, last: Edit)

  function Source(script: Script): string {
    match script
    case Start => []
    case Then(before, last) => Source(before) + last.Read()
  }

  function Target(script: Script): string {
    match script
    case Start => []
    case Then(before, last) => Target(before) + last.Written()
  }

  function Cost(script: Script): nat {
    match script
    case Start => 0
    case Then(before, last) => Cost(before) + last.Cost()
  }

  /** The script consumes exactly `a` and produces exactly `b`. */
  ghost predicate Turns(script: Script, a: string, b: string) {
    Source(script) == a && Target(script) == b
  }

  /** `d` is the length of a shortest edit script from `a` to `b` (kept characters are free). */
  ghost predicate IsEditDistance(d: nat, a: string, b: string) {
    && (exists script :: Turns(script, a, b) && Cost(script) == d)
    && (forall script :: Turns(script, a, b) ==> d <= Cost(script))
  }

  function Min(x: nat, y: nat): nat {
    if x <= y then x else y
  }

  function Max(x: nat, y: nat): nat {
    if x <= y then y else x
  }

  /** The distance by recursion on the last characters: the recurrence each matrix cell obeys. */
  function Distance(a: string, b: string): nat
    decreases |a| + |b|
  {
    if a == [] then |b|
    else if b == [] then |a|
    else
      var a', b' := a[..|a| - 1], b[..|b| - 1];
      var cost := if a[|a| - 1] == b[|b| - 1] then 0 else 1;
      Min(Min(Distance(a', b) + 1, Distance(a, b') + 1), Distance(a', b') + cost)
  }

  lemma Split(a: string)
    requires a != []
    ensures a == a[..|a| - 1] + [a[|a| - 1]]
  {
  }

  /** Removing the characters of a string one by one. */
  lemma {:induction false} Deletes(a: string) returns (script: Script)
    ensures Turns(script, a, []) && Cost(script) == |a|
  {
    if a == [] {
      script := Start;
    } else {
      Split(a);
      var before := Deletes(a[..|a| - 1]);
      script := Then(before, Delete(a[|a| - 1]));
    }
  }

  /** Writing the characters of a string one by one. */
  lemma {:induction false} Inserts(b: string) returns (script: Script)
    ensures Turns(script, [], b) && Cost(script) == |b|
  {
    if b == [] {
      script := Start;
    } else {
      Split(b);
      var before := Inserts(b[..|b| - 1]);
      script := Then(before, Insert(b[|b| - 1]));
    }
  }

  /** Some script costs exactly `Distance(a, b)`. */
  lemma {:induction false} DistanceIsReached(a: string, b: string) returns (script: Script)
    ensures Turns(script, a, b) && Cost(script) == Distance(a, b)
    decreases |a| + |b|
  {
    if a == [] {
      script := Inserts(b);
    } else if b == [] {
      script := Deletes(a);
    } else {
      var a', b' := a[..|a| - 1], b[..|b| - 1];
      var x, y := a[|a| - 1], b[|b| - 1];
      Split(a);
      Split(b);
      if Distance(a, b) == Distance(a', b) + 1 {
        var before := DistanceIsReached(a', b);
        script := Then(before, Delete(x));
      } else if Distance(a, b) == Distance(a, b') + 1 {
        var before := DistanceIsReached(a, b');
        script := Then(before, Insert(y));
      } else {
        var before := DistanceIsReached(a', b');
        script := Then(before, if x == y then Keep(x) else Substitute(x, y));
      }
    }
  }

  /** No script is cheaper than the distance between what it reads and what it writes. */
  lemma {:induction false} DistanceIsLeast(script: Script)
    ensures Distance(Source(script), Target(script)) <= Cost(script)
  {
    if script.Then? {
      DistanceIsLeast(script.before);
      OneMoreCharacter(Source(script.before), Target(script.before), script.last);
    }
  }

  /** The recurrence, for strings given by their last characters. */
  lemma Recurrence(a: string, x: char, b: string, y: char)
    ensures Distance(a + [x], b + [y]) ==
            Min(Min(Distance(a, b + [y]) + 1, Distance(a + [x], b) + 1), Distance(a, b) + (if x == y then 0 else 1))
  {
    assert (a + [x])[..|a|] == a && (b + [y])[..|b|] == b;
  }

  lemma OneMoreWritten(a: string, b: string, y: char)
    ensures Distance(a, b + [y]) <= Distance(a, b) + 1
  {
    if a != [] {
      Split(a);
      Recurrence(a[..|a| - 1], a[|a| - 1], b, y);
    }
  }

  lemma OneMoreRead(a: string, x: char, b: string)
    ensures Distance(a + [x], b) <= Distance(a, b) + 1
  {
    if b != [] {
      Split(b);
      Recurrence(a, x, b[..|b| - 1], b[|b| - 1]);
    }
  }

  /** One edit moves the distance by at most its cost. */
  lemma OneMoreCharacter(a: string, b: string, e: Edit)
    ensures Distance(a + e.Read(), b + e.Written()) <= Distance(a, b) + e.Cost()
  {
    match e
    case Insert(c) =>
      OneMoreWritten(a, b, c);
      assert a + e.Read() == a;
    case Delete(c) =>
      OneMoreRead(a, c, b);
      assert b + e.Written() == b;
    case Keep(c) => Recurrence(a, c, b, c);
    case Substitute(c, d) => Recurrence(a, c, b, d);
  }

  /** The recurrence computes the length of a shortest script, and nothing else does. */
  lemma DistanceIsEditDistance(a: string, b: string)
    ensures IsEditDistance(Distance(a, b), a, b)
    ensures forall d: nat | IsEditDistance(d, a, b) :: d == Distance(a, b)
  {
    var shortest := DistanceIsReached(a, b);
    forall script | Turns(script, a, b)
      ensures Distance(a, b) <= Cost(script)
    {
      DistanceIsLeast(script);
    }
  }

  // ---- The metric laws ----

  function Invert(script: Script): (inverse: Script)
    ensures Turns(inverse, Target(script), Source(script))
    ensures Cost(inverse) == Cost(script)
  {
    match script
    case Start => Start
    case Then(before, last) => Then(Invert(before), last.Inverse())
  }

  lemma Symmetric(a: string, b: string)
    ensures Distance(a, b) == Distance(b, a)
  {
    var there := DistanceIsReached(a, b);
    var back := DistanceIsReached(b, a);
    DistanceIsLeast(Invert(there));
    DistanceIsLeast(Invert(back));
  }

  lemma {:induction false} FreeScriptKeepsAll(script: Script)
    requires Cost(script) == 0
    ensures Source(script) == Target(script)
  {
    if script.Then? {
      FreeScriptKeepsAll(script.before);
    }
  }

  lemma {:induction false} SelfDistance(a: string)
    ensures Distance(a, a) == 0
  {
    if a != [] {
      SelfDistance(a[..|a| - 1]);
    }
  }

  lemma ZeroExactlyOnEqual(a: string, b: string)
    ensures Distance(a, b) == 0 <==> a == b
  {
    var script := DistanceIsReached(a, b);
    if Distance(a, b) == 0 {
      FreeScriptKeepsAll(script);
    }
    SelfDistance(a);
  }

  /** What two meeting edits amount to: the first writes the character the second reads. */
  function Fuse(before: Script, first: Edit, second: Edit): (script: Script)
    requires |first.Written()| == 1 && first.Written() == second.Read()
    ensures Source(script) == Source(before) + first.Read()
    ensures Target(script) == Target(before) + second.Written()
    ensures Cost(script) <= Cost(before) + first.Cost() + second.Cost()
  {
    if first.Insert? then
      if second.Delete? then before else Then(before, Insert(second.Written()[0]))
    else if second.Delete? then Then(before, Delete(first.Read()[0]))
    else
      var x, z := first.Read()[0], second.Written()[0];
      Then(before, if x == z then Keep(x) else Substitute(x, z))
  }

  lemma SameLast(a: string, x: string, b: string, y: string)
    requires |x| == |y| == 1 && a + x == b + y
    ensures a == b && x == y
  {
    assert a == (a + x)[..|a|] && b == (b + y)[..|b|];
    assert x[0] == (a + x)[|a|] && y[0] == (b + y)[|b|];
  }

  /** Two scripts that meet in a middle string compose into one that is no dearer than both. */
  lemma {:induction false} Compose(first: Script, second: Script) returns (script: Script)
    requires Target(first) == Source(second)
    ensures Turns(script, Source(first), Target(second))
    ensures Cost(script) <= Cost(first) + Cost(second)
    decreases first, second
  {
    if first.Then? && first.last.Delete? {
      var before := Compose(first.before, second);
      script := Then(before, first.last);
    } else if second.Then? && second.last.Insert? {
      var before := Compose(first, second.before);
      script := Then(before, second.last);
    } else if first.Then? && second.Then? {
      SameLast(Target(first.before), first.last.Written(), Source(second.before), second.last.Read());
      var before := Compose(first.before, second.before);
      script := Fuse(before, first.last, second.last);
    } else {
      assert first.Start? && second.Start?;
      script := Start;
    }
  }

  lemma TriangleInequality(a: string, b: string, c: string)
    ensures Distance(a, c) <= Distance(a, b) + Distance(b, c)
  {
    var first := DistanceIsReached(a, b);
    var second := DistanceIsReached(b, c);
    var script := Compose(first, second);
    DistanceIsLeast(script);
  }

  lemma {:induction false} WithinLengthBounds(a: string, b: string)
    ensures |a| <= Distance(a, b) + |b| && |b| <= Distance(a, b) + |a|
    ensures Distance(a, b) <= Max(|a|, |b|)
    decreases |a| + |b|
  {
    if a != [] && b != [] {
      WithinLengthBounds(a[..|a| - 1], b);
      WithinLengthBounds(a, b[..|b| - 1]);
      WithinLengthBounds(a[..|a| - 1], b[..|b| - 1]);
    }
  }

  // ---- The two-row loop ----

  /** The matrix cell of the first `i` characters of one string and the first `j` of the other. */
  ghost function Cell(longer: string, shorter: string, i: nat, j: nat): nat {
    if i <= |longer| && j <= |shorter| then Distance(longer[..i], shorter[..j]) else 0
  }

  ghost function Row(longer: string, shorter: string, i: nat): nat -> nat {
    j => Cell(longer, shorter, i, j)
  }

  /** The first `n` entries of the array are those of the matrix row. */
  ghost predicate RowHolds(row: array<nat>, n: nat, cells: nat -> nat)
    reads row
  {
    n <= row.Length && forall j: nat | j < n :: row[j] == cells(j)
  }

  /** `below` follows from the row `above` it, for the character `c` against those of `shorter`. */
  ghost predicate Follows(above: nat -> nat, below: nat -> nat, shorter: string, c: char) {
    && below(0) == above(0) + 1
    && forall j: nat | j < |shorter| ::
         below(j + 1) == Min(Min(above(j + 1) + 1, below(j) + 1), above(j) + (if shorter[j] != c then 1 else 0))
  }

  lemma RowsFollow(longer: string, shorter: string, i: nat)
    requires i < |longer|
    ensures Follows(Row(longer, shorter, i), Row(longer, shorter, i + 1), shorter, longer[i])
    ensures Row(longer, shorter, i + 1)(0) == i + 1
  {
    assert longer[..i + 1] == longer[..i] + [longer[i]];
    forall j: nat | j < |shorter|
      ensures Cell(longer, shorter, i + 1, j + 1) ==
              Min(Min(Cell(longer, shorter, i, j + 1) + 1, Cell(longer, shorter, i + 1, j) + 1),
                  Cell(longer, shorter, i, j) + (if shorter[j] != longer[i] then 1 else 0))
    {
      assert shorter[..j + 1] == shorter[..j] + [shorter[j]];
      Recurrence(longer[..i], longer[i], shorter[..j], shorter[j]);
    }
    assert Distance(longer[..i], shorter[..0]) == i && Distance(longer[..i + 1], shorter[..0]) == i + 1;
  }

  /** One row of the matrix from the row above it; only `curr` is written. */
  method FillRow(prev: array<nat>, curr: array<nat>, c: char, shorter: string, i: nat,
                 ghost above: nat -> nat, ghost below: nat -> nat)
    requires prev != curr && curr.Length == |shorter| + 1
    requires RowHolds(prev, |shorter| + 1, above) && Follows(above, below, shorter, c) && below(0) == i + 1
    modifies curr
    ensures RowHolds(curr, |shorter| + 1, below)
  {
    curr[0] := i + 1;
    for j := 0 to |shorter|
      invariant RowHolds(curr, j + 1, below)
    {
      var cost := if shorter[j] != c then 1 else 0;
      curr[j + 1] := Min(Min(prev[j + 1] + 1, curr[j] + 1), prev[j] + cost);
    }
  }

  lemma FirstRow(longer: string, shorter: string)
    ensures forall j: nat | j <= |shorter| :: Row(longer, shorter, 0)(j) == j
  {
    forall j: nat | j <= |shorter|
      ensures Cell(longer, shorter, 0, j) == j
    {
      assert longer[..0] == [];
    }
  }

  lemma LastCell(longer: string, shorter: string)
    ensures Row(longer, shorter, |longer|)(|shorter|) == Distance(longer, shorter)
  {
    assert longer[..|longer|] == longer && shorter[..|shorter|] == shorter;
  }

  /** The loop proper, over a nonempty shorter string. */
  method RollRows(shorter: string, longer: string) returns (d: nat)
    requires |shorter| > 0
    ensures d == Distance(longer, shorter)
  {
    var prev := new nat[|shorter| + 1](j => j);
    var curr := new nat[|shorter| + 1](_ => 0);
    FirstRow(longer, shorter);
    for i := 0 to |longer|
      invariant prev != curr && curr.Length == |shorter| + 1
      invariant fresh(prev) && fresh(curr)
      invariant RowHolds(prev, |shorter| + 1, Row(longer, shorter, i)) && prev.Length == |shorter| + 1
    {
      RowsFollow(longer, shorter, i);
      FillRow(prev, curr, longer[i], shorter, i, Row(longer, shorter, i), Row(longer, shorter, i + 1));
      prev, curr := curr, prev;
    }
    LastCell(longer, shorter);
    d := prev[|shorter|];
  }

  method LevenshteinDistance(a: string, b: string) returns (d: nat)
    ensures IsEditDistance(d, a, b)
    ensures d == Distance(a, b)
  {
    var shorter, longer := if |a| <= |b| then a else b, if |a| <= |b| then b else a;
    Symmetric(a, b);
    DistanceIsEditDistance(a, b);
    if |shorter| == 0 {
      return |longer|;
    }
    d := RollRows(shorter, longer);
  }
}
