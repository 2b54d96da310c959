/**
 * Why a shutdown drain comes to its permit: once the flag is set the mutations of the session can
 * take only finitely many more steps, whatever else runs, and from every reachable world a few
 * steps give the drain its permit.
 */
module DrainProgress {
  import opened WriteProtocol
  import opened ShutdownDrain
  import opened Wrappers

  // ---- Sums over sets of tasks ----

  ghost function RankSum(rank: TaskId -> nat, T: set<TaskId>): nat
    decreases T
  {
    if T == {} then 0
    else
      var t :| t in T;
      rank(t) + RankSum(rank, T - {t})
  }

  /** Any task can be taken out first. */
  lemma {:induction false} RankSumTake(rank: TaskId -> nat, T: set<TaskId>, t: TaskId)
    requires t in T
    ensures RankSum(rank, T) == rank(t) + RankSum(rank, T - {t})
    decreases T
  {
    var u :| u in T && RankSum(rank, T) == rank(u) + RankSum(rank, T - {u});
    if u != t {
      RankSumTake(rank, T - {u}, t);
      RankSumTake(rank, T - {t}, u);
      assert T - {u} - {t} == T - {t} - {u};
    }
  }

  /** Fewer tasks of lower rank have a lower sum, and strictly so if one of them left or sank. */
  lemma {:induction false} RankSumFalls(rank: TaskId -> nat, rank': TaskId -> nat, T: set<TaskId>, T': set<TaskId>)
    requires T' <= T && forall t | t in T' :: rank'(t) <= rank(t)
    ensures RankSum(rank', T') <= RankSum(rank, T)
    ensures (exists t | t in T :: rank(t) > 0 && (t in T' ==> rank'(t) < rank(t))) ==>
              RankSum(rank', T') < RankSum(rank, T)
    decreases T
  {
    if T != {} {
      var t :| t in T;
      RankSumTake(rank, T, t);
      RankSumFalls(rank, rank', T - {t}, T' - {t});
      if t in T' {
        RankSumTake(rank', T', t);
      } else {
        assert T' - {t} == T';
      }
    }
  }

  // ---- Every step of a mutation brings it nearer to its end ----

  /** How many steps a mutation that waits for nothing has still to take. */
  function StepsLeft(pc: Pc): nat {
    match pc
    case Checked => 5
    case Parked => 4
    case Permitted => 3
    case Mutating => 2
    case Unlocked => 1
    case _ => 0
  }

  function RankIn(w: World): TaskId -> nat {
    t => if t in w.tasks then StepsLeft(w.tasks[t].pc) else 0
  }

  /** The steps that the session's mutations have left. */
  ghost function MutationRank(w: World, s: SessionId): nat {
    RankSum(RankIn(w), SessionMutations(w, s))
  }

  /** A mutation of the session takes a step of its own. */
  ghost predicate MutationMoves(w: World, w': World, s: SessionId) {
    exists t | t in SessionMutations(w, s) :: t in w'.tasks && w'.tasks[t].pc != w.tasks[t].pc
  }

  lemma MoverSinks(w: World, a: Action)
    requires Enabled(w, a) && Mover(a).Some? && InMutation(w.tasks[Mover(a).value].pc)
    ensures StepsLeft(Apply(w, a).tasks[Mover(a).value].pc) < StepsLeft(w.tasks[Mover(a).value].pc)
  {
  }

  lemma OthersStay(w: World, a: Action, t: TaskId)
    requires Enabled(w, a) && Mover(a) != Some(t) && t in w.tasks && t in Apply(w, a).tasks
    ensures Apply(w, a).tasks[t] == w.tasks[t]
  {
    if Mover(a).Some? {
      MoverMoves(w, a);
    } else {
      OtherStaysPut(w, a, t);
    }
  }

  lemma OtherStaysPut(w: World, a: Action, t: TaskId)
    requires Enabled(w, a) && Mover(a).None? && t in w.tasks && t in Apply(w, a).tasks
    ensures Apply(w, a).tasks[t] == w.tasks[t]
  {
  }

  lemma TaskSinks(w: World, a: Action, t: TaskId)
    requires Enabled(w, a) && t in w.tasks && InMutation(w.tasks[t].pc) && t in Apply(w, a).tasks
    ensures StepsLeft(Apply(w, a).tasks[t].pc) <= StepsLeft(w.tasks[t].pc)
    ensures Apply(w, a).tasks[t].pc != w.tasks[t].pc ==> StepsLeft(Apply(w, a).tasks[t].pc) < StepsLeft(w.tasks[t].pc)
  {
    if Mover(a) == Some(t) {
      MoverSinks(w, a);
    } else {
      OthersStay(w, a, t);
    }
  }

  lemma StepSinks(w: World, w': World, s: SessionId)
    requires Inv(w) && Next(w, w') && Refusing(w, s) && s in w'.sessions
    ensures Refusing(w', s) && MutationRank(w', s) <= MutationRank(w, s)
    ensures MutationMoves(w, w', s) ==> MutationRank(w', s) < MutationRank(w, s)
  {
    StepDrainsSession(w, w', s);
    var a := NextAction(w, w');
    var T, T' := SessionMutations(w, s), SessionMutations(w', s);
    forall t | t in T && t in w'.tasks
      ensures RankIn(w')(t) <= RankIn(w)(t) && (w'.tasks[t].pc != w.tasks[t].pc ==> RankIn(w')(t) < RankIn(w)(t))
    {
      TaskSinks(w, a, t);
    }
    RankSumFalls(RankIn(w), RankIn(w'), T, T');
    if MutationMoves(w, w', s) {
      var t :| t in T && t in w'.tasks && w'.tasks[t].pc != w.tasks[t].pc;
      assert RankIn(w)(t) > 0;
    }
  }

  lemma RunSinks(ws: seq<World>, k: nat, s: SessionId)
    requires IsRun(ws) && k + 1 < |ws| && Refusing(ws[k], s) && s in ws[k + 1].sessions
    ensures Refusing(ws[k + 1], s) && MutationRank(ws[k + 1], s) <= MutationRank(ws[k], s)
    ensures MutationMoves(ws[k], ws[k + 1], s) ==> MutationRank(ws[k + 1], s) < MutationRank(ws[k], s)
  {
    RunKeepsInv(ws, k);
    RunStep(ws, k);
    StepSinks(ws[k], ws[k + 1], s);
  }

  /** How many of the indices from `i` up to `j` are marked. */
  ghost function Count(marked: nat -> bool, i: nat, j: nat): nat
    requires i <= j
    decreases j
  {
    if i == j then 0 else Count(marked, i, j - 1) + (if marked(j - 1) then 1 else 0)
  }

  lemma {:induction false} Telescope(rank: nat -> nat, marked: nat -> bool, i: nat, j: nat)
    requires i <= j
    requires forall k: nat | i <= k < j :: rank(k + 1) + (if marked(k) then 1 else 0) <= rank(k)
    ensures Count(marked, i, j) + rank(j) <= rank(i)
    decreases j - i
  {
    if i < j {
      var k: nat := j - 1;
      Telescope(rank, marked, i, k);
      assert rank(k + 1) + (if marked(k) then 1 else 0) <= rank(k);
    }
  }

  /** The steps of a run that the session's mutations take. */
  ghost function Moves(ws: seq<World>, s: SessionId): nat -> bool {
    (k: nat) => k + 1 < |ws| && MutationMoves(ws[k], ws[k + 1], s)
  }

  ghost function RankAt(ws: seq<World>, s: SessionId): nat -> nat {
    (k: nat) => if k < |ws| then MutationRank(ws[k], s) else 0
  }

  lemma MoveSinks(ws: seq<World>, i: nat, k: nat, s: SessionId)
    requires IsRun(ws) && i <= k && k + 1 < |ws| && Refusing(ws[i], s)
    requires forall n | i <= n <= k + 1 :: s in ws[n].sessions
    ensures RankAt(ws, s)(k + 1) + (if Moves(ws, s)(k) then 1 else 0) <= RankAt(ws, s)(k)
  {
    SessionOnlyDrains(ws, i, k, s);
    RunSinks(ws, k, s);
  }

  /** Once the flag is set the session's mutations take at most as many steps as they have left, in every schedule. */
  lemma MutationsFinish(ws: seq<World>, i: nat, j: nat, s: SessionId)
    requires IsRun(ws) && i <= j < |ws| && Refusing(ws[i], s)
    requires forall k | i <= k <= j :: s in ws[k].sessions
    ensures Count(Moves(ws, s), i, j) + MutationRank(ws[j], s) <= MutationRank(ws[i], s)
  {
    forall k: nat | i <= k < j
      ensures RankAt(ws, s)(k + 1) + (if Moves(ws, s)(k) then 1 else 0) <= RankAt(ws, s)(k)
    {
      MoveSinks(ws, i, k, s);
    }
    Telescope(RankAt(ws, s), Moves(ws, s), i, j);
  }

  /** Five steps at most for each mutation under way. */
  lemma {:induction false} RankBound(rank: TaskId -> nat, T: set<TaskId>)
    requires forall t :: rank(t) <= 5
    ensures RankSum(rank, T) <= 5 * |T|
    decreases T
  {
    if T != {} {
      var t :| t in T;
      RankSumTake(rank, T, t);
      RankBound(rank, T - {t});
    }
  }

  lemma MutationRankBound(w: World, s: SessionId)
    ensures MutationRank(w, s) <= 5 * |SessionMutations(w, s)|
  {
    RankBound(RankIn(w), SessionMutations(w, s));
  }

  // ---- A drain can always finish ----

  /** The drain waits at its open session. */
  predicate Waits(w: World, d: TaskId, s: SessionId) {
    d in w.tasks && w.tasks[d] == Task(s, Draining) && s in w.sessions && !w.sessions[s].closed
  }

  /** At most `n` more steps, with the drain still waiting and the session alive. */
  ghost predicate Nears(ws: seq<World>, ws': seq<World>, d: TaskId, s: SessionId, n: nat) {
    Extends(ws, ws', s) && |ws'| <= |ws| + n && Waits(Last(ws'), d, s)
  }

  lemma NearsTransitive(ws: seq<World>, ws': seq<World>, ws'': seq<World>, d: TaskId, s: SessionId, n: nat, n': nat)
    requires Nears(ws, ws', d, s, n) && Nears(ws', ws'', d, s, n')
    ensures Nears(ws, ws'', d, s, n + n')
  {
    ExtendsTransitive(ws, ws', ws'', s);
  }

  lemma StaysOpen(w: World, a: Action, s: SessionId)
    requires Enabled(w, a) && Mover(a).Some? && s in w.sessions
    ensures s in Apply(w, a).sessions && Apply(w, a).sessions[s].closed == w.sessions[s].closed
    ensures Apply(w, a).sessions[s].workspace == w.sessions[s].workspace
  {
  }

  lemma MoverStays(w: World, a: Action, t: TaskId)
    requires Enabled(w, a) && Mover(a).Some? && t in w.tasks
    ensures t in Apply(w, a).tasks && (Mover(a).value != t ==> Apply(w, a).tasks[t] == w.tasks[t])
  {
    MoverMoves(w, a);
  }

  /** A step of another task leaves the drain waiting. */
  lemma OtherStep(ws: seq<World>, a: Action, d: TaskId, s: SessionId) returns (ws': seq<World>)
    requires IsRun(ws) && Enabled(Last(ws), a) && Waits(Last(ws), d, s)
    requires Mover(a).Some? && Mover(a).value != d
    ensures Nears(ws, ws', d, s, 1) && Last(ws') == Apply(Last(ws), a)
  {
    ws' := OneMoreStep(ws, a, s);
    MoverStays(Last(ws), a, d);
    StaysOpen(Last(ws), a, s);
  }

  /** The task stands there in the session, and is not the drain. */
  predicate Stands(w: World, t: TaskId, d: TaskId, s: SessionId, pc: Pc) {
    t != d && t in w.tasks && w.tasks[t] == Task(s, pc)
  }

  /** Whoever holds the lock that the task waits for drops it. */
  lemma ClearLock(ws: seq<World>, t: TaskId, d: TaskId, s: SessionId, k: Workspace) returns (ws': seq<World>)
    requires IsRun(ws) && Waits(Last(ws), d, s) && Stands(Last(ws), t, d, s, Permitted)
    requires Last(ws).sessions[s].workspace == Some(k)
    ensures Nears(ws, ws', d, s, 1) && Stands(Last(ws'), t, d, s, Permitted)
    ensures Last(ws').sessions[s].workspace == Some(k) && k !in Last(ws').locks
  {
    var w := Last(ws);
    if k in w.locks {
      RunKeepsInv(ws, |ws| - 1);
      var u := w.locks[k];
      assert HoldsGuard(w, u, k);
      ws' := OtherStep(ws, DropLock(u), d, s);
      MoverStays(w, DropLock(u), t);
      StaysOpen(w, DropLock(u), s);
    } else {
      ws' := ws;
    }
  }

  lemma TakeGuard(ws: seq<World>, t: TaskId, d: TaskId, s: SessionId) returns (ws': seq<World>)
    requires IsRun(ws) && Waits(Last(ws), d, s) && Stands(Last(ws), t, d, s, Permitted)
    ensures Nears(ws, ws', d, s, 2) && Stands(Last(ws'), t, d, s, Mutating)
  {
    match Last(ws).sessions[s].workspace {
      case None =>
        ws' := OtherStep(ws, BundleInMemory(t), d, s);
      case Some(k) =>
        var cleared := ClearLock(ws, t, d, s, k);
        ws' := OtherStep(cleared, TakeLock(t), d, s);
        NearsTransitive(ws, cleared, ws', d, s, 1, 1);
    }
  }

  lemma LeaveGuard(ws: seq<World>, t: TaskId, d: TaskId, s: SessionId) returns (ws': seq<World>)
    requires IsRun(ws) && Waits(Last(ws), d, s) && Stands(Last(ws), t, d, s, Mutating)
    ensures Nears(ws, ws', d, s, 1) && Stands(Last(ws'), t, d, s, Unlocked)
  {
    ws' := OtherStep(ws, DropLock(t), d, s);
  }

  lemma LeavePermit(ws: seq<World>, t: TaskId, d: TaskId, s: SessionId, pc: Pc) returns (ws': seq<World>)
    requires IsRun(ws) && Waits(Last(ws), d, s) && Stands(Last(ws), t, d, s, pc) && (pc.Unlocked? || pc.Drained?)
    ensures Nears(ws, ws', d, s, 1) && Last(ws').sessions[s].free > 0
  {
    ws' := OtherStep(ws, DropPermit(t), d, s);
  }

  /** From the middle of a mutation to the end of its guard. */
  lemma RunMutation(ws: seq<World>, t: TaskId, d: TaskId, s: SessionId, pc: Pc) returns (ws': seq<World>)
    requires IsRun(ws) && Waits(Last(ws), d, s) && Stands(Last(ws), t, d, s, pc) && (pc.Permitted? || pc.Mutating?)
    ensures Nears(ws, ws', d, s, 3) && Stands(Last(ws'), t, d, s, Unlocked)
  {
    var guarded := ws;
    if pc.Permitted? {
      guarded := TakeGuard(ws, t, d, s);
    }
    ws' := LeaveGuard(guarded, t, d, s);
    NearsTransitive(ws, guarded, ws', d, s, 2, 1);
  }

  /** The holder of the permit gives it back within four steps. */
  lemma HolderLeaves(ws: seq<World>, t: TaskId, d: TaskId, s: SessionId, pc: Pc) returns (ws': seq<World>)
    requires IsRun(ws) && Waits(Last(ws), d, s) && Stands(Last(ws), t, d, s, pc) && HoldsPermit(pc)
    ensures Nears(ws, ws', d, s, 4) && Last(ws').sessions[s].free > 0
  {
    if pc.Permitted? || pc.Mutating? {
      var unlocked := RunMutation(ws, t, d, s, pc);
      ws' := LeavePermit(unlocked, t, d, s, Unlocked);
      NearsTransitive(ws, unlocked, ws', d, s, 3, 1);
    } else {
      ws' := LeavePermit(ws, t, d, s, pc);
    }
  }

  lemma PermitIsFreed(ws: seq<World>, d: TaskId, s: SessionId) returns (ws': seq<World>)
    requires IsRun(ws) && Waits(Last(ws), d, s)
    ensures Nears(ws, ws', d, s, 4) && Last(ws').sessions[s].free > 0
  {
    var w := Last(ws);
    if w.sessions[s].free > 0 {
      ws' := ws;
    } else {
      RunKeepsInv(ws, |ws| - 1);
      assert PermitOk(w, s);
      var t :| Holders(w, s) == {t};
      assert t in Holders(w, s);
      ws' := HolderLeaves(ws, t, d, s, w.tasks[t].pc);
    }
  }

  /** From every reachable world a waiting drain gets its permit within five steps, if they are scheduled. */
  lemma DrainCanFinish(ws: seq<World>, d: TaskId, s: SessionId) returns (ws': seq<World>)
    requires IsRun(ws) && Waits(Last(ws), d, s)
    ensures Extends(ws, ws', s) && |ws'| <= |ws| + 5
    ensures d in Last(ws').tasks && Last(ws').tasks[d] == Task(s, Drained)
  {
    var freed := PermitIsFreed(ws, d, s);
    ws' := OneMoreStep(freed, Grant(d), s);
    ExtendsTransitive(ws, freed, ws', s);
  }
}
