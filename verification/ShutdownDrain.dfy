/**
 * What a finished shutdown drain is worth: it waits for the mutation that holds the permit, but a
 * mutation that read the flag before it was set still runs afterwards.
 */
module ShutdownDrain {
  import opened WriteProtocol
  import opened Wrappers

  /** The session is alive and its shutdown flag is set. */
  predicate Refusing(w: World, s: SessionId) {
    s in w.sessions && FlagSet(w, w.sessions[s].flag)
  }

  predicate IsDrain(pc: Pc) {
    pc.Draining? || pc.Drained?
  }

  /** The mutations of one session that are under way. */
  function SessionMutations(w: World, s: SessionId): set<TaskId> {
    set t | t in w.tasks && w.tasks[t].session == s && InMutation(w.tasks[t].pc)
  }

  /** A mutation that has read the flag as clear and does not hold the permit yet. */
  predicate PastCheck(w: World, t: TaskId, s: SessionId) {
    t in w.tasks && w.tasks[t].session == s && (w.tasks[t].pc.Checked? || w.tasks[t].pc.Parked?)
  }

  // ---- Draining tasks have set the flag ----

  ghost predicate DrainsFlagged(w: World) {
    forall t | t in w.tasks && IsDrain(w.tasks[t].pc) :: Refusing(w, w.tasks[t].session)
  }

  lemma RefusalStays(w: World, a: Action, s: SessionId)
    requires Inv(w) && Enabled(w, a) && Refusing(w, s) && s in Apply(w, a).sessions
    ensures Refusing(Apply(w, a), s)
  {
    FlagStays(w, a, w.sessions[s].flag);
    if Mover(a).Some? {
      MoverKeepsFlags(w, a, s);
    } else {
      OtherKeepsFlags(w, a, s);
    }
  }

  lemma OtherKeepsFlags(w: World, a: Action, s: SessionId)
    requires Enabled(w, a) && Mover(a).None? && s in w.sessions && s in Apply(w, a).sessions
    ensures Apply(w, a).sessions[s].flag == w.sessions[s].flag
  {
  }

  /** A task becomes a drain by setting the flag, or was one. */
  lemma MoverBecomesDrain(w: World, a: Action)
    requires Enabled(w, a) && Mover(a).Some? && IsDrain(Apply(w, a).tasks[Mover(a).value].pc)
    ensures a.CallShutdown? || IsDrain(w.tasks[Mover(a).value].pc)
  {
  }

  lemma OtherStepKeepsDrains(w: World, a: Action, t: TaskId)
    requires Enabled(w, a) && Mover(a).None? && t in Apply(w, a).tasks && IsDrain(Apply(w, a).tasks[t].pc)
    ensures t in w.tasks && w.tasks[t] == Apply(w, a).tasks[t]
  {
  }

  lemma DrainStep(w: World, a: Action, t: TaskId)
    requires Enabled(w, a) && t in Apply(w, a).tasks && IsDrain(Apply(w, a).tasks[t].pc)
    ensures || a == CallShutdown(t)
            || (t in w.tasks && IsDrain(w.tasks[t].pc) && w.tasks[t].session == Apply(w, a).tasks[t].session)
  {
    if Mover(a).None? {
      OtherStepKeepsDrains(w, a, t);
    } else {
      MoverMoves(w, a);
      if t == Mover(a).value {
        MoverBecomesDrain(w, a);
      }
    }
  }

  lemma StepKeepsDrainsFlagged(w: World, a: Action)
    requires Inv(w) && DrainsFlagged(w) && Enabled(w, a)
    ensures DrainsFlagged(Apply(w, a))
  {
    var w' := Apply(w, a);
    StepKeepsInv(w, a);
    forall t | t in w'.tasks && IsDrain(w'.tasks[t].pc)
      ensures Refusing(w', w'.tasks[t].session)
    {
      DrainStep(w, a, t);
      if a != CallShutdown(t) {
        RefusalStays(w, a, w.tasks[t].session);
      }
    }
  }

  lemma {:induction false} RunKeepsDrainsFlagged(ws: seq<World>, i: nat)
    requires IsRun(ws) && i < |ws|
    ensures DrainsFlagged(ws[i])
  {
    if i == 0 {
      RunStarts(ws);
    } else {
      RunKeepsDrainsFlagged(ws, i - 1);
      RunKeepsInv(ws, i - 1);
      RunStep(ws, i - 1);
      var a := NextAction(ws[i - 1], ws[i]);
      StepKeepsDrainsFlagged(ws[i - 1], a);
    }
  }

  // ---- A refusing session only drains ----

  lemma MoverDrainsSession(w: World, a: Action, s: SessionId)
    requires Inv(w) && Enabled(w, a) && Refusing(w, s) && Mover(a).Some?
    ensures SessionMutations(Apply(w, a), s) <= SessionMutations(w, s)
  {
    var w', t := Apply(w, a), Mover(a).value;
    MoverMoves(w, a);
    forall u | u in SessionMutations(w', s)
      ensures u in SessionMutations(w, s)
    {
      assert u != t ==> w'.tasks[u] == w.tasks[u];
    }
  }

  lemma OtherStepDrainsSession(w: World, a: Action, s: SessionId)
    requires Enabled(w, a) && Mover(a).None?
    ensures SessionMutations(Apply(w, a), s) <= SessionMutations(w, s)
  {
  }

  lemma StepDrainsSession(w: World, w': World, s: SessionId)
    requires Inv(w) && Next(w, w') && Refusing(w, s) && s in w'.sessions
    ensures Refusing(w', s) && SessionMutations(w', s) <= SessionMutations(w, s)
  {
    var a := NextAction(w, w');
    RefusalStays(w, a, s);
    if Mover(a).Some? {
      MoverDrainsSession(w, a, s);
    } else {
      OtherStepDrainsSession(w, a, s);
    }
  }

  /** While a refusing session lives, no mutation of it starts. */
  lemma {:induction false} SessionOnlyDrains(ws: seq<World>, i: nat, j: nat, s: SessionId)
    requires IsRun(ws) && i <= j < |ws| && Refusing(ws[i], s)
    requires forall k | i <= k <= j :: s in ws[k].sessions
    ensures Refusing(ws[j], s) && SessionMutations(ws[j], s) <= SessionMutations(ws[i], s)
    decreases j - i
  {
    if i < j {
      SessionOnlyDrains(ws, i, j - 1, s);
      RunKeepsInv(ws, j - 1);
      RunStep(ws, j - 1);
      StepDrainsSession(ws[j - 1], ws[j], s);
    }
  }

  /** When a drain holds the permit and no mutation is past its check, the session never writes again. */
  lemma QuietAfterDrain(ws: seq<World>, i: nat, j: nat, d: TaskId)
    requires IsRun(ws) && i <= j < |ws| && d in ws[i].tasks && ws[i].tasks[d].pc.Drained?
    requires forall t :: !PastCheck(ws[i], t, ws[i].tasks[d].session)
    requires forall k | i <= k <= j :: ws[i].tasks[d].session in ws[k].sessions
    ensures SessionMutations(ws[j], ws[i].tasks[d].session) == {}
  {
    var s := ws[i].tasks[d].session;
    RunKeepsDrainsFlagged(ws, i);
    SessionOnlyDrains(ws, i, j, s);
    forall t | t in SessionMutations(ws[i], s)
      ensures false
    {
      assert !PastCheck(ws[i], t, s);
      DrainSeesNoMutation(ws, i, d, t);
    }
  }

  // ---- A mutation past its check still runs ----

  /** `ws'` goes on from `ws`, and the session lives on. */
  ghost predicate Extends(ws: seq<World>, ws': seq<World>, s: SessionId) {
    && ws != [] && ws <= ws' && IsRun(ws')
    && forall k | |ws| - 1 <= k < |ws'| :: s in ws'[k].sessions
  }

  function Last(ws: seq<World>): World
    requires ws != []
  {
    ws[|ws| - 1]
  }

  lemma ExtendsTransitive(ws: seq<World>, ws': seq<World>, ws'': seq<World>, s: SessionId)
    requires Extends(ws, ws', s) && Extends(ws', ws'', s)
    ensures Extends(ws, ws'', s)
  {
    forall k | |ws| - 1 <= k < |ws''|
      ensures s in ws''[k].sessions
    {
      if k < |ws'| {
        assert ws''[k] == ws'[k];
      }
    }
  }

  /** Any enabled step of a task goes on with a run. */
  lemma OneMoreStep(ws: seq<World>, a: Action, s: SessionId) returns (ws': seq<World>)
    requires IsRun(ws) && Enabled(Last(ws), a) && Mover(a).Some? && s in Last(ws).sessions
    ensures Extends(ws, ws', s) && Last(ws') == Apply(Last(ws), a) && |ws'| == |ws| + 1
  {
    ws' := ws + [Apply(Last(ws), a)];
    assert ws'[..|ws'| - 1] == ws;
    assert Next(Last(ws), Apply(Last(ws), a));
    MoverKeepsSessions(Last(ws), a);
  }

  /** The permit is free, or about to be given back, and nobody has closed the semaphore. */
  predicate CanRun(w: World, t: TaskId, s: SessionId) {
    t in w.tasks && w.tasks[t].session == s && s in w.sessions && !w.sessions[s].closed
  }

  lemma DropDrain(ws: seq<World>, d: TaskId, t: TaskId, s: SessionId) returns (ws': seq<World>)
    requires IsRun(ws) && d in Last(ws).tasks && Last(ws).tasks[d] == Task(s, Drained)
    requires CanRun(Last(ws), t, s) && PastCheck(Last(ws), t, s)
    ensures Extends(ws, ws', s) && CanRun(Last(ws'), t, s) && PastCheck(Last(ws'), t, s)
    ensures Last(ws').sessions[s].free > 0
  {
    ws' := OneMoreStep(ws, DropPermit(d), s);
  }

  lemma ParkIt(ws: seq<World>, t: TaskId, s: SessionId) returns (ws': seq<World>)
    requires IsRun(ws) && CanRun(Last(ws), t, s) && PastCheck(Last(ws), t, s) && Last(ws).sessions[s].free > 0
    ensures Extends(ws, ws', s) && CanRun(Last(ws'), t, s) && Last(ws').tasks[t].pc.Parked?
    ensures Last(ws').sessions[s].free > 0
  {
    if Last(ws).tasks[t].pc.Checked? {
      ws' := OneMoreStep(ws, Park(t), s);
    } else {
      ws' := ws;
    }
  }

  lemma GrantIt(ws: seq<World>, t: TaskId, s: SessionId) returns (ws': seq<World>)
    requires IsRun(ws) && CanRun(Last(ws), t, s) && Last(ws).tasks[t].pc.Parked? && Last(ws).sessions[s].free > 0
    ensures Extends(ws, ws', s) && CanRun(Last(ws'), t, s) && Last(ws').tasks[t].pc.Permitted?
  {
    ws' := OneMoreStep(ws, Grant(t), s);
  }

  /** The workspace lock is free, or its holder lets it go. */
  lemma FreeLock(ws: seq<World>, t: TaskId, s: SessionId, k: Workspace) returns (ws': seq<World>)
    requires IsRun(ws) && CanRun(Last(ws), t, s) && Last(ws).tasks[t].pc.Permitted?
    requires Last(ws).sessions[s].workspace == Some(k)
    ensures Extends(ws, ws', s) && CanRun(Last(ws'), t, s) && Last(ws').tasks[t].pc.Permitted?
    ensures Last(ws').sessions[s].workspace == Some(k) && k !in Last(ws').locks
  {
    var w := Last(ws);
    if k in w.locks {
      RunKeepsInv(ws, |ws| - 1);
      assert HoldsGuard(w, w.locks[k], k);
      ws' := OneMoreStep(ws, DropLock(w.locks[k]), s);
    } else {
      ws' := ws;
    }
  }

  lemma EnterGuard(ws: seq<World>, t: TaskId, s: SessionId) returns (ws': seq<World>)
    requires IsRun(ws) && CanRun(Last(ws), t, s) && Last(ws).tasks[t].pc.Permitted?
    ensures Extends(ws, ws', s) && CanRun(Last(ws'), t, s) && Last(ws').tasks[t].pc.Mutating?
  {
    match Last(ws).sessions[s].workspace {
      case None =>
        ws' := OneMoreStep(ws, BundleInMemory(t), s);
      case Some(k) =>
        var ready := FreeLock(ws, t, s, k);
        ws' := OneMoreStep(ready, TakeLock(t), s);
        ExtendsTransitive(ws, ready, ws', s);
    }
  }

  /** The mutation runs after the drain has held and returned the permit. */
  lemma LateWriterRuns(ws: seq<World>, d: TaskId, t: TaskId, s: SessionId) returns (ws': seq<World>)
    requires IsRun(ws) && d in Last(ws).tasks && Last(ws).tasks[d] == Task(s, Drained)
    requires CanRun(Last(ws), t, s) && PastCheck(Last(ws), t, s)
    ensures Extends(ws, ws', s) && CanRun(Last(ws'), t, s) && Last(ws').tasks[t].pc.Mutating?
  {
    var dropped := DropDrain(ws, d, t, s);
    var parked := ParkIt(dropped, t, s);
    ExtendsTransitive(ws, dropped, parked, s);
    var granted := GrantIt(parked, t, s);
    ExtendsTransitive(ws, parked, granted, s);
    ws' := EnterGuard(granted, t, s);
    ExtendsTransitive(ws, granted, ws', s);
  }

  /** Some task of the session holds a mutation guard at the end of the run. */
  predicate EndsInMutation(ws: seq<World>, s: SessionId) {
    ws != [] && exists t | t in Last(ws).tasks :: Last(ws).tasks[t].session == s && Last(ws).tasks[t].pc.Mutating?
  }

  /**
   * A session whose drain holds the permit can still write later exactly when some mutation has
   * passed the flag check: the drain witnesses that no write is under way, not that none follows.
   */
  lemma DrainIsFinalExactly(ws: seq<World>, d: TaskId, s: SessionId)
    requires IsRun(ws) && d in Last(ws).tasks && Last(ws).tasks[d] == Task(s, Drained)
    requires s in Last(ws).sessions && !Last(ws).sessions[s].closed
    ensures (exists ws' | Extends(ws, ws', s) :: EndsInMutation(ws', s)) <==> (exists t :: PastCheck(Last(ws), t, s))
  {
    if t :| PastCheck(Last(ws), t, s) {
      var ws' := LateWriterRuns(ws, d, t, s);
      assert EndsInMutation(ws', s);
    } else {
      forall ws' | Extends(ws, ws', s)
        ensures !EndsInMutation(ws', s)
      {
        NeverWrites(ws, ws', d, s);
      }
    }
  }

  lemma NeverWrites(ws: seq<World>, ws': seq<World>, d: TaskId, s: SessionId)
    requires Extends(ws, ws', s) && d in Last(ws).tasks && Last(ws).tasks[d] == Task(s, Drained)
    requires forall t :: !PastCheck(Last(ws), t, s)
    ensures !EndsInMutation(ws', s)
  {
    var i := |ws| - 1;
    assert ws'[i] == Last(ws);
    QuietAfterDrain(ws', i, |ws'| - 1, d);
    forall t | t in Last(ws').tasks && Last(ws').tasks[t].session == s
      ensures !Last(ws').tasks[t].pc.Mutating?
    {
      assert t !in SessionMutations(Last(ws'), s);
    }
  }

  // ---- Such a run exists ----

  lemma Continue(ws: seq<World>, a: Action) returns (ws': seq<World>)
    requires IsRun(ws) && Enabled(Last(ws), a)
    ensures IsRun(ws') && ws <= ws' && Last(ws') == Apply(Last(ws), a)
  {
    ws' := ws + [Apply(Last(ws), a)];
    assert ws'[..|ws'| - 1] == ws;
    assert Next(Last(ws), Apply(Last(ws), a));
  }

  /** One session with two calls that have not started, and its flag clear. */
  predicate TwoReady(w: World) {
    && w.tasks == map[0 := Task(0, Ready), 1 := Task(0, Ready)]
    && 0 in w.sessions && w.sessions[0] == Session(0, None, 0, WRITE_PERMITS, false)
    && w.raised == {}
  }

  lemma TwoCalls() returns (ws: seq<World>)
    ensures IsRun(ws) && TwoReady(Last(ws))
  {
    ws := Continue([EMPTY], StartProcess(0, 0));
    ws := Continue(ws, OpenSession(0, 0, None, 0));
    ws := Continue(ws, Spawn(0, 0));
    ws := Continue(ws, Spawn(1, 0));
  }

  /** A run that reaches a drain with the permit beside a mutation past its check: it can still write. */
  lemma DrainBesideLateWriter() returns (ws: seq<World>, later: seq<World>)
    ensures IsRun(ws) && Refusing(Last(ws), 0)
    ensures 1 in Last(ws).tasks && Last(ws).tasks[1] == Task(0, Drained) && PastCheck(Last(ws), 0, 0)
    ensures Extends(ws, later, 0) && EndsInMutation(later, 0)
  {
    ws := TwoCalls();
    ws := Continue(ws, CheckFlag(0));
    ws := Continue(ws, CallShutdown(1));
    ws := Continue(ws, Grant(1));
    later := LateWriterRuns(ws, 1, 0, 0);
  }
}
