/**
 * The epic eligibility predicate and the cascade over it: which open epics close once every child
 * is closed, counting epics the cascade itself has already placed as closed children.
 */
module EpicCascade {
  import opened Ordering

  datatype IssueType = Epic | OtherType(name: string)

  datatype Status =
    | Open | InProgress | Blocked | Deferred | Draft | Closed | Tombstone | Pinned
    | Custom(name: string)
  {
    predicate IsTerminal() {
      Closed? || Tombstone?
    }
  }

  datatype DependencyType = ParentChild | OtherDependency(name: string)

  datatype Dependency = Dependency(dependsOnId: string, depType: DependencyType)

  datatype Issue = Issue(
    id: string, issueType: IssueType, isTemplate: bool, status: Status, dependencies: seq<Dependency>)

  datatype EpicStatus = EpicStatus(epic: Issue, totalChildren: nat, closedChildren: nat)

  predicate IsEligibleForClose(epic: Issue, totalChildren: nat, closedChildren: nat) {
    && epic.issueType == Epic
    && !epic.isTemplate
    && !epic.status.IsTerminal()
    && totalChildren > 0
    && closedChildren == totalChildren
  }

  // ---- Counting placed children ----

  function AllIds(cs: seq<EpicStatus>): set<string> {
    set i | 0 <= i < |cs| :: cs[i].epic.id
  }

  ghost predicate DistinctIds(cs: seq<EpicStatus>) {
    forall i, j | 0 <= i < j < |cs| :: cs[i].epic.id != cs[j].epic.id
  }

  /** Not yet closed, not a tombstone and not a template: the rows a rollup counts as open. */
  predicate IsOpen(issue: Issue) {
    !issue.isTemplate && !issue.status.IsTerminal()
  }

  function OpenIds(cs: seq<EpicStatus>): set<string> {
    set i | 0 <= i < |cs| && IsOpen(cs[i].epic) :: cs[i].epic.id
  }

  /** How many parent-child edges to `parent` the list holds. */
  function Edges(deps: seq<Dependency>, parent: string): nat {
    if deps == [] then 0
    else
      var last := deps[|deps| - 1];
      Edges(deps[..|deps| - 1], parent) +
      (if last.depType == ParentChild && last.dependsOnId == parent then 1 else 0)
  }

  /** How many more closed children `parent` has once the candidates in `placed` are closed. */
  function Credit(cs: seq<EpicStatus>, placed: set<string>, parent: string): nat {
    if cs == [] then 0
    else
      Credit(cs[1..], placed, parent) +
      (if cs[0].epic.id in placed then Edges(cs[0].epic.dependencies, parent) else 0)
  }

  /** The candidate passes the single-pass predicate once the epics in `placed` are closed. */
  predicate EligibleAfter(cs: seq<EpicStatus>, placed: set<string>, c: EpicStatus) {
    IsEligibleForClose(c.epic, c.totalChildren, c.closedChildren + Credit(cs, placed, c.epic.id))
  }

  /** The candidates that the rule adds to `placed`. */
  function Ready(cs: seq<EpicStatus>, placed: set<string>): set<string> {
    set i | 0 <= i < |cs| && cs[i].epic.id !in placed && EligibleAfter(cs, placed, cs[i]) :: cs[i].epic.id
  }

  /**
   * The rollup agrees with the candidates: ids are distinct, and each open candidate's edges to p
   * are counted in p's total and not among p's closed children.
   */
  ghost predicate Consistent(cs: seq<EpicStatus>) {
    && DistinctIds(cs)
    && forall c | c in cs :: c.closedChildren + Credit(cs, OpenIds(cs), c.epic.id) <= c.totalChildren
  }

  lemma {:induction false} CreditMonotone(cs: seq<EpicStatus>, P: set<string>, Q: set<string>, parent: string)
    requires P <= Q
    ensures Credit(cs, P, parent) <= Credit(cs, Q, parent)
  {
    if cs != [] {
      CreditMonotone(cs[1..], P, Q, parent);
    }
  }

  /** A child placed in `Q` only makes a difference. */
  lemma {:induction false} CreditStrict(cs: seq<EpicStatus>, P: set<string>, Q: set<string>, parent: string, i: nat)
    requires P <= Q && i < |cs| && cs[i].epic.id in Q - P
    requires Edges(cs[i].epic.dependencies, parent) > 0
    ensures Credit(cs, P, parent) < Credit(cs, Q, parent)
  {
    if i == 0 {
      CreditMonotone(cs[1..], P, Q, parent);
    } else {
      CreditStrict(cs[1..], P, Q, parent, i - 1);
    }
  }

  /** And only such a child makes a difference. */
  lemma {:induction false} CreditDiffers(cs: seq<EpicStatus>, P: set<string>, Q: set<string>, parent: string)
    returns (i: nat)
    requires P <= Q && Credit(cs, P, parent) != Credit(cs, Q, parent)
    ensures i < |cs| && cs[i].epic.id in Q - P && Edges(cs[i].epic.dependencies, parent) > 0
  {
    if Credit(cs[1..], P, parent) != Credit(cs[1..], Q, parent) {
      var i' := CreditDiffers(cs[1..], P, Q, parent);
      i := i' + 1;
    } else {
      i := 0;
    }
  }

  /** Placing one more candidate credits its parents once per edge. */
  lemma {:induction false} CreditOneMore(cs: seq<EpicStatus>, P: set<string>, i: nat, parent: string)
    requires DistinctIds(cs) && i < |cs| && cs[i].epic.id !in P
    ensures Credit(cs, P + {cs[i].epic.id}, parent) ==
            Credit(cs, P, parent) + Edges(cs[i].epic.dependencies, parent)
  {
    if i == 0 {
      CreditIgnores(cs[1..], P, cs[0].epic.id, parent);
    } else {
      CreditOneMore(cs[1..], P, i - 1, parent);
    }
  }

  lemma {:induction false} CreditIgnores(cs: seq<EpicStatus>, P: set<string>, id: string, parent: string)
    requires forall c | c in cs :: c.epic.id != id
    ensures Credit(cs, P + {id}, parent) == Credit(cs, P, parent)
  {
    if cs != [] {
      CreditIgnores(cs[1..], P, id, parent);
    }
  }

  // ---- The eligibility rule on a consistent rollup ----

  /** An eligible candidate stays eligible however many more open epics are placed. */
  lemma EligibleStays(cs: seq<EpicStatus>, P: set<string>, Q: set<string>, c: EpicStatus)
    requires Consistent(cs) && P <= Q <= OpenIds(cs) && c in cs && EligibleAfter(cs, P, c)
    ensures EligibleAfter(cs, Q, c)
  {
    CreditMonotone(cs, P, Q, c.epic.id);
    CreditMonotone(cs, Q, OpenIds(cs), c.epic.id);
  }

  /** `child` is an open candidate that holds a parent-child edge to `parent`. */
  ghost predicate IsChild(cs: seq<EpicStatus>, child: string, parent: string) {
    exists i | 0 <= i < |cs| ::
      cs[i].epic.id == child && IsOpen(cs[i].epic) && Edges(cs[i].epic.dependencies, parent) > 0
  }

  /** Eligibility means that every open child has been placed. */
  lemma EligibleNeedsChildren(cs: seq<EpicStatus>, P: set<string>, c: EpicStatus, child: string)
    requires Consistent(cs) && P <= OpenIds(cs) && c in cs && EligibleAfter(cs, P, c)
    requires IsChild(cs, child, c.epic.id)
    ensures child in P
  {
    var i :| 0 <= i < |cs| && cs[i].epic.id == child && IsOpen(cs[i].epic)
             && Edges(cs[i].epic.dependencies, c.epic.id) > 0;
    if child !in P {
      CreditStrict(cs, P, OpenIds(cs), c.epic.id, i);
    }
  }

  /** A set of open epics that the rule adds nothing to. */
  ghost predicate ClosedUnderRule(cs: seq<EpicStatus>, T: set<string>) {
    T <= OpenIds(cs) && Ready(cs, T) == {}
  }

  // ---- The cascade order ----

  ghost function Elements(order: seq<string>): set<string> {
    set x | x in order
  }

  /** `ids` lists the set in strictly ascending order. */
  ghost predicate Ascending(ids: seq<string>, S: set<string>) {
    && Elements(ids) == S
    && forall i, j | 0 <= i < j < |ids| :: ids[i] != ids[j] && LexLeq(ids[i], ids[j])
  }

  /** The output grouped into the rounds that placed it. */
  datatype Rounds = Done | Round(ids: seq<string>, later: Rounds)

  function Flatten(rounds: Rounds): seq<string> {
    match rounds
    case Done => []
    case Round(ids, later) => ids + Flatten(later)
  }

  /** What remains of the cascade once `placed` is placed: each round lists what is ready, ids ascending. */
  ghost predicate IsCascade(cs: seq<EpicStatus>, placed: set<string>, rounds: Rounds)
    decreases rounds
  {
    var ready := Ready(cs, placed);
    match rounds
    case Done => ready == {}
    case Round(ids, later) => ids != [] && Ascending(ids, ready) && IsCascade(cs, placed + ready, later)
  }

  lemma ElementsOfRound(ids: seq<string>, later: Rounds)
    ensures Elements(Flatten(Round(ids, later))) == Elements(ids) + Elements(Flatten(later))
  {
  }

  /** The result is closed under the rule, and contained in every set of open epics that is. */
  lemma {:induction false} CascadeIsLeast(cs: seq<EpicStatus>, P: set<string>, rounds: Rounds)
    requires Consistent(cs) && P <= OpenIds(cs) && IsCascade(cs, P, rounds)
    ensures ClosedUnderRule(cs, P + Elements(Flatten(rounds)))
    ensures forall T | P <= T && ClosedUnderRule(cs, T) :: P + Elements(Flatten(rounds)) <= T
    decreases rounds
  {
    match rounds
    case Done =>
      assert P + Elements(Flatten(rounds)) == P;
    case Round(ids, later) =>
      var Q := P + Ready(cs, P);
      CascadeIsLeast(cs, Q, later);
      ElementsOfRound(ids, later);
      assert P + Elements(Flatten(rounds)) == Q + Elements(Flatten(later));
      forall T | P <= T && ClosedUnderRule(cs, T)
        ensures P + Elements(Flatten(rounds)) <= T
      {
        RuleStaysInside(cs, P, T);
      }
  }

  lemma RuleStaysInside(cs: seq<EpicStatus>, P: set<string>, T: set<string>)
    requires Consistent(cs) && P <= T && ClosedUnderRule(cs, T)
    ensures Ready(cs, P) <= T
  {
    forall id | id in Ready(cs, P)
      ensures id in T
    {
      var i :| 0 <= i < |cs| && cs[i].epic.id == id && EligibleAfter(cs, P, cs[i]);
      EligibleStays(cs, P, T, cs[i]);
      assert id !in T ==> id in Ready(cs, T);
    }
  }

  /** The set the cascade closes, and the only one. */
  lemma CascadeClosesLeastSet(cs: seq<EpicStatus>, rounds: Rounds)
    requires Consistent(cs) && IsCascade(cs, {}, rounds)
    ensures ClosedUnderRule(cs, Elements(Flatten(rounds)))
    ensures forall T | ClosedUnderRule(cs, T) :: Elements(Flatten(rounds)) <= T
  {
    CascadeIsLeast(cs, {}, rounds);
    assert {} + Elements(Flatten(rounds)) == Elements(Flatten(rounds));
  }

  /** Everything placed before position `k`. */
  ghost function Before(rounds: Rounds, k: nat): set<string>
    requires k < |Flatten(rounds)|
  {
    Elements(Flatten(rounds)[..k])
  }

  lemma BeforeInLater(ids: seq<string>, later: Rounds, k: nat)
    requires |ids| <= k < |ids| + |Flatten(later)|
    ensures Flatten(Round(ids, later))[k] == Flatten(later)[k - |ids|]
    ensures Before(Round(ids, later), k) == Elements(ids) + Before(later, k - |ids|)
  {
    var order := Flatten(Round(ids, later));
    assert order[..k] == ids + Flatten(later)[..k - |ids|];
  }

  /** What the first round places is ready, and was not placed before. */
  lemma InFirstRound(cs: seq<EpicStatus>, P: set<string>, ids: seq<string>, k: nat) returns (c: EpicStatus)
    requires Consistent(cs) && P <= OpenIds(cs) && Ascending(ids, Ready(cs, P)) && k < |ids|
    ensures c in cs && c.epic.id == ids[k] && EligibleAfter(cs, P, c)
    ensures P + Elements(ids[..k]) <= OpenIds(cs) && ids[k] !in P + Elements(ids[..k])
  {
    assert ids[k] in Elements(ids);
    var i :| 0 <= i < |cs| && cs[i].epic.id == ids[k] && cs[i].epic.id !in P && EligibleAfter(cs, P, cs[i]);
    c := cs[i];
    assert Elements(ids[..k]) <= Elements(ids);
  }

  /** Closing the ids one at a time, each epic passes the single-pass predicate at its turn. */
  lemma {:induction false} EligibleAtItsTurn(cs: seq<EpicStatus>, P: set<string>, rounds: Rounds, k: nat)
    returns (c: EpicStatus)
    requires Consistent(cs) && P <= OpenIds(cs) && IsCascade(cs, P, rounds) && k < |Flatten(rounds)|
    ensures c in cs && c.epic.id == Flatten(rounds)[k]
    ensures EligibleAfter(cs, P + Before(rounds, k), c)
    ensures P + Before(rounds, k) <= OpenIds(cs)
    ensures Flatten(rounds)[k] !in P + Before(rounds, k)
    decreases rounds
  {
    var Round(ids, later) := rounds;
    if k < |ids| {
      c := InFirstRound(cs, P, ids, k);
      assert Flatten(rounds)[..k] == ids[..k];
      EligibleStays(cs, P, P + Before(rounds, k), c);
    } else {
      c := EligibleAtItsTurn(cs, P + Ready(cs, P), later, k - |ids|);
      BeforeInLater(ids, later, k);
      assert P + Before(rounds, k) == P + Ready(cs, P) + Before(later, k - |ids|);
    }
  }

  /** What the output may hold: open epics with children, all of which are closed by then. */
  lemma PlacedEpicsAreDone(cs: seq<EpicStatus>, rounds: Rounds, k: nat) returns (c: EpicStatus)
    requires Consistent(cs) && IsCascade(cs, {}, rounds) && k < |Flatten(rounds)|
    ensures c in cs && c.epic.id == Flatten(rounds)[k]
    ensures c.epic.issueType == Epic && !c.epic.isTemplate && c.epic.status != Closed && c.epic.status != Tombstone
    ensures c.totalChildren > 0
    ensures c.closedChildren + Credit(cs, Before(rounds, k), c.epic.id) == c.totalChildren
  {
    c := EligibleAtItsTurn(cs, {}, rounds, k);
    assert {} + Before(rounds, k) == Before(rounds, k);
  }

  /** An epic, no template, neither closed nor a tombstone, whose children are all closed once `order` is. */
  ghost predicate IsFinished(cs: seq<EpicStatus>, order: seq<string>, c: EpicStatus) {
    && c.epic.issueType == Epic && !c.epic.isTemplate
    && c.epic.status != Closed && c.epic.status != Tombstone
    && c.totalChildren > 0
    && c.closedChildren + Credit(cs, Elements(order), c.epic.id) == c.totalChildren
  }

  /** The output is complete: a candidate is in it exactly when it is finished once the output is closed. */
  lemma FinishedExactly(cs: seq<EpicStatus>, order: seq<string>, c: EpicStatus)
    requires Consistent(cs) && IsCloseOrder(cs, order) && c in cs
    ensures c.epic.id in order <==> IsFinished(cs, order, c)
  {
    var rounds :| IsCascade(cs, {}, rounds) && order == Flatten(rounds);
    CascadeClosesLeastSet(cs, rounds);
    var placed := Elements(order);
    if c.epic.id in order {
      var k :| 0 <= k < |order| && order[k] == c.epic.id;
      var c' := PlacedEpicsAreDone(cs, rounds, k);
      SameCandidate(cs, c, c');
      CreditMonotone(cs, Before(rounds, k), placed, c.epic.id);
      CreditMonotone(cs, placed, OpenIds(cs), c.epic.id);
    }
  }

  lemma SameCandidate(cs: seq<EpicStatus>, c: EpicStatus, c': EpicStatus)
    requires DistinctIds(cs) && c in cs && c' in cs && c.epic.id == c'.epic.id
    ensures c == c'
  {
  }

  /** The edges counted are the parent-child ones to that parent, as often as they occur. */
  lemma {:induction false} EdgesCounted(deps: seq<Dependency>, parent: string)
    ensures Edges(deps, parent) == multiset(deps)[Dependency(parent, ParentChild)]
  {
    if deps != [] {
      var before, last := deps[..|deps| - 1], deps[|deps| - 1];
      EdgesCounted(before, parent);
      assert deps == before + [last];
    }
  }

  /** The dependencies of the candidates whose ids are placed. */
  function PlacedDependencies(cs: seq<EpicStatus>, placed: set<string>): seq<Dependency> {
    if cs == [] then []
    else (if cs[0].epic.id in placed then cs[0].epic.dependencies else []) + PlacedDependencies(cs[1..], placed)
  }

  /** Placed candidates are counted once for each parent-child edge that they hold to the parent. */
  lemma {:induction false} CreditCounted(cs: seq<EpicStatus>, placed: set<string>, parent: string)
    ensures Credit(cs, placed, parent) == multiset(PlacedDependencies(cs, placed))[Dependency(parent, ParentChild)]
  {
    if cs != [] {
      CreditCounted(cs[1..], placed, parent);
      EdgesCounted(cs[0].epic.dependencies, parent);
    }
  }

  /** Every open child of a placed epic is placed before it. */
  lemma ChildrenPrecede(cs: seq<EpicStatus>, rounds: Rounds, k: nat, child: string)
    requires Consistent(cs) && IsCascade(cs, {}, rounds)
    requires k < |Flatten(rounds)| && IsChild(cs, child, Flatten(rounds)[k])
    ensures child in Flatten(rounds)[..k]
  {
    var c := EligibleAtItsTurn(cs, {}, rounds, k);
    EligibleNeedsChildren(cs, {} + Before(rounds, k), c, child);
  }

  lemma NoRepeats(cs: seq<EpicStatus>, rounds: Rounds, j: nat, k: nat)
    requires Consistent(cs) && IsCascade(cs, {}, rounds) && j < k < |Flatten(rounds)|
    ensures Flatten(rounds)[j] != Flatten(rounds)[k]
  {
    var _ := EligibleAtItsTurn(cs, {}, rounds, k);
    assert Flatten(rounds)[..k][j] in Before(rounds, k);
  }

  // ---- Cycles ----

  /** Each id names an open child of the next. */
  ghost predicate Chain(cs: seq<EpicStatus>, chain: seq<string>) {
    forall i | 0 <= i < |chain| - 1 :: IsChild(cs, chain[i], chain[i + 1])
  }

  /** What a placed epic stands on is placed strictly earlier. */
  lemma {:induction false} ChainPrecedes(cs: seq<EpicStatus>, rounds: Rounds, chain: seq<string>, k: nat)
    returns (j: nat)
    requires Consistent(cs) && IsCascade(cs, {}, rounds) && Chain(cs, chain)
    requires k < |Flatten(rounds)| && |chain| > 1 && Flatten(rounds)[k] == chain[|chain| - 1]
    ensures j < k && Flatten(rounds)[j] == chain[0]
    decreases |chain|
  {
    ChildrenPrecede(cs, rounds, k, chain[|chain| - 2]);
    j :| 0 <= j < k && Flatten(rounds)[j] == chain[|chain| - 2];
    if |chain| > 2 {
      j := ChainPrecedes(cs, rounds, chain[..|chain| - 1], j);
    }
  }

  /** An epic on or above a parent-child cycle of still-open epics is never placed. */
  lemma CycleNeverPlaced(cs: seq<EpicStatus>, rounds: Rounds, chain: seq<string>, m: nat)
    requires Consistent(cs) && IsCascade(cs, {}, rounds) && Chain(cs, chain)
    requires 0 < m < |chain| && chain[0] == chain[m]
    ensures chain[|chain| - 1] !in Flatten(rounds)
  {
    var order := Flatten(rounds);
    if chain[|chain| - 1] in order {
      var k :| 0 <= k < |order| && order[k] == chain[|chain| - 1];
      var bottom := ChainPrecedes(cs, rounds, chain, k);
      var again := ChainPrecedes(cs, rounds, chain[..m + 1], bottom);
      NoRepeats(cs, rounds, again, bottom);
      assert false;
    }
  }

  // ---- Rounds are heights ----

  /** The round, from 1, that places position `k` of the output. */
  ghost function RoundOf(rounds: Rounds, k: nat): nat
    requires k < |Flatten(rounds)|
  {
    var Round(ids, later) := rounds;
    if k < |ids| then 1 else 1 + RoundOf(later, k - |ids|)
  }

  /** One more than the greatest height of a placed child; 1 for an epic with no open child. */
  ghost function Height(cs: seq<EpicStatus>, order: seq<string>, k: nat): nat
    requires k < |order|
    decreases k, k + 1
  {
    1 + TallestChild(cs, order, k, k)
  }

  ghost function TallestChild(cs: seq<EpicStatus>, order: seq<string>, k: nat, n: nat): nat
    requires n <= k < |order|
    decreases k, n
  {
    if n == 0 then 0
    else
      var rest := TallestChild(cs, order, k, n - 1);
      var h := if IsChild(cs, order[n - 1], order[k]) then Height(cs, order, n - 1) else 0;
      if rest <= h then h else rest
  }

  /** An epic of the first round has no child that is still to be placed. */
  lemma FirstRoundIsChildless(cs: seq<EpicStatus>, P: set<string>, rounds: Rounds, k: nat, j: nat)
    requires Consistent(cs) && P <= OpenIds(cs) && IsCascade(cs, P, rounds) && j < |Flatten(rounds)|
    requires rounds.Round? && k < |rounds.ids|
    ensures !IsChild(cs, Flatten(rounds)[j], Flatten(rounds)[k])
  {
    var c := InFirstRound(cs, P, rounds.ids, k);
    var child := Flatten(rounds)[j];
    if IsChild(cs, child, c.epic.id) {
      EligibleNeedsChildren(cs, P, c, child);
      var _ := EligibleAtItsTurn(cs, P, rounds, j);
      assert false;
    }
  }

  /** Children are placed in strictly earlier rounds. */
  lemma {:induction false} ChildrenInEarlierRounds(cs: seq<EpicStatus>, P: set<string>, rounds: Rounds, k: nat, j: nat)
    requires Consistent(cs) && P <= OpenIds(cs) && IsCascade(cs, P, rounds)
    requires k < |Flatten(rounds)| && j < |Flatten(rounds)|
    requires IsChild(cs, Flatten(rounds)[j], Flatten(rounds)[k])
    ensures RoundOf(rounds, j) < RoundOf(rounds, k)
    decreases rounds
  {
    var Round(ids, later) := rounds;
    if k < |ids| {
      FirstRoundIsChildless(cs, P, rounds, k, j);
    } else if j >= |ids| {
      ChildrenInEarlierRounds(cs, P + Ready(cs, P), later, k - |ids|, j - |ids|);
    }
  }

  /** What becomes ready only after a round has a child in that round. */
  lemma ReadyOnlyNow(cs: seq<EpicStatus>, P: set<string>, id: string) returns (child: nat)
    requires Consistent(cs) && id in Ready(cs, P + Ready(cs, P))
    ensures child < |cs| && cs[child].epic.id in Ready(cs, P)
    ensures IsChild(cs, cs[child].epic.id, id)
  {
    var ready := Ready(cs, P);
    var i :| 0 <= i < |cs| && cs[i].epic.id == id && cs[i].epic.id !in P + ready && EligibleAfter(cs, P + ready, cs[i]);
    assert !EligibleAfter(cs, P, cs[i]);
    child := CreditDiffers(cs, P, P + ready, id);
    OpenById(cs, child);
  }

  /** A round after the first is owed to a child placed in the round before. */
  lemma {:induction false} LateRoundHasCause(cs: seq<EpicStatus>, P: set<string>, rounds: Rounds, k: nat)
    returns (late: nat)
    requires Consistent(cs) && IsCascade(cs, P, rounds)
    requires k < |Flatten(rounds)| && RoundOf(rounds, k) > 1
    ensures late < k && IsChild(cs, Flatten(rounds)[late], Flatten(rounds)[k])
    ensures RoundOf(rounds, late) == RoundOf(rounds, k) - 1
    decreases rounds
  {
    var Round(ids, later) := rounds;
    var k' := k - |ids|;
    if k' < |later.ids| {
      assert later.ids[k'] in Elements(later.ids);
      var child := ReadyOnlyNow(cs, P, later.ids[k']);
      assert cs[child].epic.id in Elements(ids);
      late :| 0 <= late < |ids| && ids[late] == cs[child].epic.id;
    } else {
      var late' := LateRoundHasCause(cs, P + Ready(cs, P), later, k');
      late := |ids| + late';
    }
  }

  lemma OpenById(cs: seq<EpicStatus>, i: nat)
    requires DistinctIds(cs) && i < |cs| && cs[i].epic.id in OpenIds(cs)
    ensures IsOpen(cs[i].epic)
  {
  }

  lemma {:induction false} TallestBounds(cs: seq<EpicStatus>, order: seq<string>, k: nat, n: nat, bound: nat)
    requires n <= k < |order|
    requires forall j | 0 <= j < n && IsChild(cs, order[j], order[k]) :: Height(cs, order, j) <= bound
    ensures TallestChild(cs, order, k, n) <= bound
    ensures forall j | 0 <= j < n && IsChild(cs, order[j], order[k]) ::
              Height(cs, order, j) <= TallestChild(cs, order, k, n)
  {
    if n > 0 {
      TallestBounds(cs, order, k, n - 1, bound);
    }
  }

  /** Each epic is placed in the round that is its height in the cascade. */
  lemma {:induction false} RoundIsHeight(cs: seq<EpicStatus>, rounds: Rounds, k: nat)
    requires Consistent(cs) && IsCascade(cs, {}, rounds) && k < |Flatten(rounds)|
    ensures RoundOf(rounds, k) == Height(cs, Flatten(rounds), k)
  {
    var order := Flatten(rounds);
    forall j | 0 <= j < k
      ensures RoundOf(rounds, j) == Height(cs, order, j)
      ensures IsChild(cs, order[j], order[k]) ==> RoundOf(rounds, j) < RoundOf(rounds, k)
    {
      RoundIsHeight(cs, rounds, j);
      if IsChild(cs, order[j], order[k]) {
        ChildrenInEarlierRounds(cs, {}, rounds, k, j);
      }
    }
    TallestBounds(cs, order, k, k, RoundOf(rounds, k) - 1);
    if RoundOf(rounds, k) > 1 {
      var late := LateRoundHasCause(cs, {}, rounds, k);
      assert Height(cs, order, late) == RoundOf(rounds, k) - 1;
    }
  }

  lemma {:induction false} RoundsAscend(cs: seq<EpicStatus>, P: set<string>, rounds: Rounds, j: nat, k: nat)
    requires IsCascade(cs, P, rounds) && j < k < |Flatten(rounds)|
    ensures RoundOf(rounds, j) < RoundOf(rounds, k)
            || (RoundOf(rounds, j) == RoundOf(rounds, k) && LexLeq(Flatten(rounds)[j], Flatten(rounds)[k]))
    decreases rounds
  {
    if j >= |rounds.ids| {
      RoundsAscend(cs, P + Ready(cs, P), rounds.later, j - |rounds.ids|, k - |rounds.ids|);
    }
  }

  /** The output is sorted by height in the cascade, then by id. */
  lemma SortedByHeight(cs: seq<EpicStatus>, rounds: Rounds, j: nat, k: nat)
    requires Consistent(cs) && IsCascade(cs, {}, rounds) && j < k < |Flatten(rounds)|
    ensures var order := Flatten(rounds);
            Height(cs, order, j) < Height(cs, order, k)
            || (Height(cs, order, j) == Height(cs, order, k) && LexLeq(order[j], order[k]))
  {
    RoundIsHeight(cs, rounds, j);
    RoundIsHeight(cs, rounds, k);
    RoundsAscend(cs, {}, rounds, j, k);
  }

  // ---- The output does not depend on the order of the candidates ----

  lemma {:induction false} CreditExtract(cs: seq<EpicStatus>, k: nat, P: set<string>, parent: string)
    requires k < |cs|
    ensures Credit(cs, P, parent) == Credit(cs[..k] + cs[k + 1..], P, parent) + Credit([cs[k]], P, parent)
  {
    if k == 0 {
      assert cs[..k] + cs[k + 1..] == cs[1..];
    } else {
      CreditExtract(cs[1..], k - 1, P, parent);
      assert (cs[..k] + cs[k + 1..])[1..] == cs[1..][..k - 1] + cs[1..][k..];
    }
  }

  lemma {:induction false} CreditPermuted(cs: seq<EpicStatus>, cs': seq<EpicStatus>, P: set<string>, parent: string)
    requires multiset(cs) == multiset(cs')
    ensures Credit(cs, P, parent) == Credit(cs', P, parent)
    decreases |cs|
  {
    if cs == [] {
      assert |cs'| == |multiset(cs')| == 0;
    } else {
      var k := MatchFirst(cs, cs');
      CreditPermuted(cs[1..], cs'[..k] + cs'[k + 1..], P, parent);
      CreditExtract(cs', k, P, parent);
    }
  }

  lemma MatchFirst(cs: seq<EpicStatus>, cs': seq<EpicStatus>) returns (k: nat)
    requires cs != [] && multiset(cs) == multiset(cs')
    ensures k < |cs'| && cs'[k] == cs[0]
    ensures multiset(cs[1..]) == multiset(cs'[..k] + cs'[k + 1..])
  {
    assert cs[0] in multiset(cs');
    k :| 0 <= k < |cs'| && cs'[k] == cs[0];
    assert cs == [cs[0]] + cs[1..];
    assert cs' == cs'[..k] + ([cs'[k]] + cs'[k + 1..]);
    assert multiset(cs[1..]) == multiset(cs) - multiset{cs[0]};
    assert multiset(cs'[..k] + cs'[k + 1..]) == multiset(cs') - multiset{cs[0]};
  }

  lemma ReadyPermuted(cs: seq<EpicStatus>, cs': seq<EpicStatus>, P: set<string>)
    requires multiset(cs) == multiset(cs')
    ensures Ready(cs, P) <= Ready(cs', P)
  {
    forall i | 0 <= i < |cs| && EligibleAfter(cs, P, cs[i])
      ensures cs[i] in cs' && EligibleAfter(cs', P, cs[i])
    {
      assert cs[i] in multiset(cs');
      CreditPermuted(cs, cs', P, cs[i].epic.id);
    }
  }

  lemma NonemptyListing(a: seq<string>, S: set<string>)
    requires Ascending(a, S)
    ensures a == [] <==> S == {}
  {
    if a != [] {
      assert a[0] in Elements(a);
    }
  }

  /** A set has one ascending listing. */
  lemma {:induction false} AscendingUnique(a: seq<string>, b: seq<string>, S: set<string>)
    requires Ascending(a, S) && Ascending(b, S)
    ensures a == b
    decreases |a|
  {
    NonemptyListing(a, S);
    NonemptyListing(b, S);
    if a != [] {
      assert a[0] in Elements(a) && a[0] in b;
      var i :| 0 <= i < |b| && b[i] == a[0];
      assert b[0] in Elements(b) && b[0] in a;
      var j :| 0 <= j < |a| && a[j] == b[0];
      LexTotal(a[0], b[0]);
      assert a[0] == b[0];
      DropFirst(a, S);
      DropFirst(b, S);
      AscendingUnique(a[1..], b[1..], S - {a[0]});
    }
  }

  lemma DropFirst(a: seq<string>, S: set<string>)
    requires Ascending(a, S) && a != []
    ensures Ascending(a[1..], S - {a[0]}) && a == [a[0]] + a[1..]
  {
    forall x | x in S - {a[0]}
      ensures x in a[1..]
    {
      assert x in Elements(a);
      var i :| 0 <= i < |a| && a[i] == x;
      assert a[1..][i - 1] == x;
    }
  }

  /** Equal candidates, in any order, give the same rounds and so the same output. */
  lemma {:induction false} CascadeUnique(cs: seq<EpicStatus>, cs': seq<EpicStatus>, P: set<string>,
                                         rounds: Rounds, rounds': Rounds)
    requires multiset(cs) == multiset(cs')
    requires IsCascade(cs, P, rounds) && IsCascade(cs', P, rounds')
    ensures rounds == rounds'
    decreases rounds
  {
    ReadyPermuted(cs, cs', P);
    ReadyPermuted(cs', cs, P);
    if rounds.Round? {
      NonemptyListing(rounds.ids, Ready(cs, P));
    }
    if rounds'.Round? {
      NonemptyListing(rounds'.ids, Ready(cs, P));
    }
    if rounds.Round? && rounds'.Round? {
      AscendingUnique(rounds.ids, rounds'.ids, Ready(cs, P));
      CascadeUnique(cs, cs', P + Ready(cs, P), rounds.later, rounds'.later);
    }
  }

  /** The output of the cascade: its rounds one after the other. */
  ghost predicate IsCloseOrder(cs: seq<EpicStatus>, order: seq<string>) {
    exists rounds :: IsCascade(cs, {}, rounds) && order == Flatten(rounds)
  }

  lemma CloseOrderUnique(cs: seq<EpicStatus>, cs': seq<EpicStatus>, order: seq<string>, order': seq<string>)
    requires multiset(cs) == multiset(cs') && IsCloseOrder(cs, order) && IsCloseOrder(cs', order')
    ensures order == order'
  {
    var rounds :| IsCascade(cs, {}, rounds) && order == Flatten(rounds);
    var rounds' :| IsCascade(cs', {}, rounds') && order' == Flatten(rounds');
    CascadeUnique(cs, cs', {}, rounds, rounds');
  }

  // ---- The loop ----

  /** The finished rounds in front of those to come. */
  ghost function Assemble(finished: seq<seq<string>>, later: Rounds): Rounds {
    if finished == [] then later else Round(finished[0], Assemble(finished[1..], later))
  }

  lemma {:induction false} AssembleMore(finished: seq<seq<string>>, ids: seq<string>, later: Rounds)
    ensures Assemble(finished + [ids], later) == Assemble(finished, Round(ids, later))
    ensures Flatten(Assemble(finished + [ids], Done)) == Flatten(Assemble(finished, Done)) + ids
    decreases |finished|
  {
    if finished != [] {
      assert (finished + [ids])[1..] == finished[1..] + [ids];
      AssembleMore(finished[1..], ids, later);
    }
  }

  /** The two arrays of the loop describe the set of ids placed so far. */
  ghost predicate Tracks(cs: seq<EpicStatus>, placed: array<bool>, closed: array<nat>, P: set<string>)
    reads placed, closed
  {
    && placed.Length == closed.Length == |cs|
    && (forall i | 0 <= i < |cs| :: placed[i] <==> cs[i].epic.id in P)
    && (forall i | 0 <= i < |cs| :: closed[i] == cs[i].closedChildren + Credit(cs, P, cs[i].epic.id))
  }

  ghost predicate Indexes(cs: seq<EpicStatus>, index: map<string, nat>) {
    && (forall i | 0 <= i < |cs| :: cs[i].epic.id in index)
    && (forall id | id in index :: index[id] < |cs| && cs[index[id]].epic.id == id)
  }

  method BuildIndex(cs: seq<EpicStatus>) returns (index: map<string, nat>)
    ensures Indexes(cs, index)
  {
    index := map[];
    for i := 0 to |cs|
      invariant forall j | 0 <= j < i :: cs[j].epic.id in index
      invariant forall id | id in index :: index[id] < |cs| && cs[index[id]].epic.id == id
    {
      index := index[cs[i].epic.id := i];
    }
  }

  type Entry = (string, nat)

  predicate EntryLeq(x: Entry, y: Entry) {
    LexLeq(x.0, y.0)
  }

  lemma EntryOrder()
    ensures TotalPreorder(EntryLeq)
  {
    forall x: Entry, y: Entry
      ensures EntryLeq(x, y) || EntryLeq(y, x)
    {
      LexTotal(x.0, y.0);
    }
    forall x: Entry, y: Entry, z: Entry | EntryLeq(x, y) && EntryLeq(y, z)
      ensures EntryLeq(x, z)
    {
      LexTransitive(x.0, y.0, z.0);
    }
  }

  /** Each entry names an eligible candidate that is not placed yet, and no two the same one. */
  ghost predicate EntriesOf(cs: seq<EpicStatus>, P: set<string>, entries: seq<Entry>) {
    && (forall e | e in entries :: e.1 < |cs| && cs[e.1].epic.id == e.0 && e.0 in Ready(cs, P))
    && (forall id | id in Ready(cs, P) :: exists e | e in entries :: e.0 == id)
    && (forall i, j | 0 <= i < j < |entries| :: entries[i].0 != entries[j].0)
  }

  /** The eligible candidates of one round, in candidate order. */
  method CollectRound(cs: seq<EpicStatus>, placed: array<bool>, closed: array<nat>, ghost P: set<string>)
    returns (entries: seq<Entry>)
    requires DistinctIds(cs) && Tracks(cs, placed, closed, P)
    ensures EntriesOf(cs, P, entries)
  {
    entries := [];
    for i := 0 to |cs|
      invariant forall e | e in entries :: e.1 < i && cs[e.1].epic.id == e.0 && e.0 in Ready(cs, P)
      invariant forall j | 0 <= j < i && cs[j].epic.id in Ready(cs, P) :: (cs[j].epic.id, j) in entries
      invariant forall j, k | 0 <= j < k < |entries| :: entries[j].0 != entries[k].0
    {
      if !placed[i] && IsEligibleForClose(cs[i].epic, cs[i].totalChildren, closed[i]) {
        entries := entries + [(cs[i].epic.id, i)];
      }
    }
    forall id | id in Ready(cs, P)
      ensures exists e | e in entries :: e.0 == id
    {
      var j :| 0 <= j < |cs| && cs[j].epic.id == id;
      assert (id, j) in entries;
    }
  }

  function EntryIds(entries: seq<Entry>): (ids: seq<string>)
    ensures |ids| == |entries|
    ensures forall i | 0 <= i < |ids| :: ids[i] == entries[i].0
  {
    seq(|entries|, i requires 0 <= i < |entries| => entries[i].0)
  }

  lemma SameEntries(cs: seq<EpicStatus>, P: set<string>, entries: seq<Entry>, sorted: seq<Entry>)
    requires DistinctIds(cs) && EntriesOf(cs, P, entries) && multiset(sorted) == multiset(entries)
    ensures forall e :: e in sorted <==> e in entries
    ensures EntriesOf(cs, P, sorted)
  {
    forall e
      ensures e in sorted <==> e in entries
    {
      assert e in multiset(sorted) <==> e in multiset(entries);
    }
    forall i, j | 0 <= i < j < |sorted|
      ensures sorted[i].0 != sorted[j].0
    {
      if sorted[i].0 == sorted[j].0 {
        assert sorted[i] in entries && sorted[j] in entries;
        TwiceIn(sorted, i, j);
        OnceIn(entries, sorted[i]);
        assert false;
      }
    }
  }

  lemma TwiceIn(entries: seq<Entry>, i: nat, j: nat)
    requires i < j < |entries| && entries[i] == entries[j]
    ensures multiset(entries)[entries[i]] >= 2
  {
    assert entries == entries[..i] + [entries[i]] + entries[i + 1..j] + [entries[j]] + entries[j + 1..];
  }

  lemma {:induction false} OnceIn(entries: seq<Entry>, e: Entry)
    requires forall i, j | 0 <= i < j < |entries| :: entries[i] != entries[j]
    ensures multiset(entries)[e] <= 1
  {
    if entries != [] {
      OnceIn(entries[1..], e);
      assert entries == [entries[0]] + entries[1..];
      assert forall i | 1 <= i < |entries| :: entries[i] != entries[0];
    }
  }

  lemma SortedRoundAscends(cs: seq<EpicStatus>, P: set<string>, entries: seq<Entry>)
    requires EntriesOf(cs, P, entries) && SortedBy(EntryLeq, entries)
    ensures Ascending(EntryIds(entries), Ready(cs, P))
  {
    ListedReady(cs, P, entries);
    assert forall id :: id in EntryIds(entries) <==> id in Elements(EntryIds(entries));
  }

  /** Marks one candidate placed and counts it as a closed child of its parents. */
  method Place(cs: seq<EpicStatus>, index: map<string, nat>, placed: array<bool>, closed: array<nat>, i: nat,
               ghost P: set<string>)
    requires DistinctIds(cs) && Indexes(cs, index) && Tracks(cs, placed, closed, P)
    requires i < |cs| && cs[i].epic.id !in P
    modifies placed, closed
    ensures Tracks(cs, placed, closed, P + {cs[i].epic.id})
  {
    placed[i] := true;
    CountParents(cs, index, closed, cs[i].epic.dependencies);
    forall p | 0 <= p < |cs|
      ensures closed[p] == cs[p].closedChildren + Credit(cs, P + {cs[i].epic.id}, cs[p].epic.id)
    {
      CreditOneMore(cs, P, i, cs[p].epic.id);
    }
  }

  /** Counts one closed child for every candidate a parent-child edge of the list points to. */
  method CountParents(cs: seq<EpicStatus>, index: map<string, nat>, closed: array<nat>, deps: seq<Dependency>)
    requires DistinctIds(cs) && Indexes(cs, index) && closed.Length == |cs|
    modifies closed
    ensures forall p | 0 <= p < |cs| :: closed[p] == old(closed[p]) + Edges(deps, cs[p].epic.id)
  {
    for d := 0 to |deps|
      invariant forall p | 0 <= p < |cs| :: closed[p] == old(closed[p]) + Edges(deps[..d], cs[p].epic.id)
    {
      assert deps[..d + 1][..d] == deps[..d];
      if deps[d].depType == ParentChild && deps[d].dependsOnId in index {
        var parent := index[deps[d].dependsOnId];
        closed[parent] := closed[parent] + 1;
      }
    }
    assert deps[..|deps|] == deps;
  }

  /** Every entry names a candidate that neither `P` nor an earlier entry holds. */
  ghost predicate Placeable(cs: seq<EpicStatus>, P: set<string>, entries: seq<Entry>) {
    forall n | 0 <= n < |entries| ::
      && entries[n].1 < |cs| && cs[entries[n].1].epic.id == entries[n].0
      && entries[n].0 !in P + Elements(EntryIds(entries)[..n])
  }

  /** Places one sorted round, extending the output in its order. */
  method PlaceRound(cs: seq<EpicStatus>, index: map<string, nat>, placed: array<bool>, closed: array<nat>,
                    entries: seq<Entry>, order: seq<string>, ghost P: set<string>)
    returns (order': seq<string>)
    requires DistinctIds(cs) && Indexes(cs, index) && Tracks(cs, placed, closed, P)
    requires Placeable(cs, P, entries)
    modifies placed, closed
    ensures Tracks(cs, placed, closed, P + Elements(EntryIds(entries)))
    ensures order' == order + EntryIds(entries)
  {
    order' := order;
    ghost var ids := EntryIds(entries);
    assert P + Elements(ids[..0]) == P;
    for n := 0 to |entries|
      invariant Tracks(cs, placed, closed, P + Elements(ids[..n]))
      invariant order' == order + ids[..n]
    {
      var (id, i) := entries[n];
      ghost var Q := P + Elements(ids[..n]);
      Place(cs, index, placed, closed, i, Q);
      order' := order' + [id];
      OneMoreId(P, ids, n);
    }
    assert ids[..|entries|] == ids;
  }

  lemma OneMoreId(P: set<string>, ids: seq<string>, n: nat)
    requires n < |ids|
    ensures ids[..n + 1] == ids[..n] + [ids[n]]
    ensures P + Elements(ids[..n + 1]) == P + Elements(ids[..n]) + {ids[n]}
  {
  }

  lemma RoundIsPlaceable(cs: seq<EpicStatus>, P: set<string>, entries: seq<Entry>)
    requires EntriesOf(cs, P, entries)
    ensures Placeable(cs, P, entries)
  {
    forall n | 0 <= n < |entries|
      ensures entries[n] in entries && entries[n].0 !in Elements(EntryIds(entries)[..n])
    {
    }
  }

  lemma ListedReady(cs: seq<EpicStatus>, P: set<string>, entries: seq<Entry>)
    requires EntriesOf(cs, P, entries)
    ensures Elements(EntryIds(entries)) == Ready(cs, P)
  {
    var ids := EntryIds(entries);
    forall id | id in ids
      ensures id in Ready(cs, P)
    {
      var i :| 0 <= i < |ids| && ids[i] == id;
      assert entries[i] in entries;
    }
    forall id | id in Ready(cs, P)
      ensures id in ids
    {
      var e :| e in entries && e.0 == id;
      var i :| 0 <= i < |entries| && entries[i] == e;
      assert ids[i] == id;
    }
  }

  /** One round in output order: the eligible candidates sorted by id. */
  method NextRound(cs: seq<EpicStatus>, placed: array<bool>, closed: array<nat>, ghost P: set<string>)
    returns (sorted: seq<Entry>)
    requires DistinctIds(cs) && Tracks(cs, placed, closed, P)
    ensures Placeable(cs, P, sorted) && Elements(EntryIds(sorted)) == Ready(cs, P)
    ensures Ascending(EntryIds(sorted), Ready(cs, P))
  {
    var entries := CollectRound(cs, placed, closed, P);
    EntryOrder();
    sorted := SortBy(EntryLeq, entries);
    SameEntries(cs, P, entries, sorted);
    SortedRoundAscends(cs, P, sorted);
    RoundIsPlaceable(cs, P, sorted);
    ListedReady(cs, P, sorted);
  }

  method CascadeCloseSet(cs: seq<EpicStatus>) returns (order: seq<string>)
    requires DistinctIds(cs)
    ensures IsCloseOrder(cs, order)
  {
    var index := BuildIndex(cs);
    var closed := new nat[|cs|](i requires 0 <= i < |cs| => cs[i].closedChildren);
    var placed := new bool[|cs|](_ => false);
    order := [];
    ghost var P: set<string>, finished: seq<seq<string>> := {}, [];
    NothingPlaced(cs);
    while true
      invariant Tracks(cs, placed, closed, P) && P <= AllIds(cs)
      invariant fresh(placed) && fresh(closed)
      invariant order == Flatten(Assemble(finished, Done))
      invariant forall later | IsCascade(cs, P, later) :: IsCascade(cs, {}, Assemble(finished, later))
      decreases AllIds(cs) - P
    {
      var round := NextRound(cs, placed, closed, P);
      NonemptyListing(EntryIds(round), Ready(cs, P));
      if |round| == 0 {
        assert IsCascade(cs, P, Done);
        assert IsCascade(cs, {}, Assemble(finished, Done));
        return;
      }
      order := PlaceRound(cs, index, placed, closed, round, order, P);
      RoundJoins(cs, P, finished, EntryIds(round));
      P, finished := P + Ready(cs, P), finished + [EntryIds(round)];
    }
  }

  lemma {:induction false} NothingPlaced(cs: seq<EpicStatus>)
    ensures forall parent :: Credit(cs, {}, parent) == 0
  {
    if cs != [] {
      NothingPlaced(cs[1..]);
    }
  }

  /** A finished round moves from the cascade still to come into the finished part. */
  lemma RoundJoins(cs: seq<EpicStatus>, P: set<string>, finished: seq<seq<string>>, ids: seq<string>)
    requires ids != [] && Ascending(ids, Ready(cs, P))
    requires forall later | IsCascade(cs, P, later) :: IsCascade(cs, {}, Assemble(finished, later))
    ensures forall later | IsCascade(cs, P + Ready(cs, P), later) ::
              IsCascade(cs, {}, Assemble(finished + [ids], later))
    ensures Flatten(Assemble(finished + [ids], Done)) == Flatten(Assemble(finished, Done)) + ids
  {
    AssembleMore(finished, ids, Done);
    forall later | IsCascade(cs, P + Ready(cs, P), later)
      ensures IsCascade(cs, {}, Assemble(finished + [ids], later))
    {
      AssembleMore(finished, ids, later);
      assert IsCascade(cs, P, Round(ids, later));
    }
  }
}
