/** Why a call ends as it does, what raises a flag, and what a signal does to its own process only. */
module CallOutcomes {
  import opened WriteProtocol
  import opened Wrappers

  // ---- Every outcome has its cause ----

  /** What a call must be doing, and find, to end that way. */
  predicate Causes(w: World, t: TaskId, outcome: CallOutcome)
    requires t in w.tasks && w.tasks[t].session in w.sessions
  {
    var pc := w.tasks[t].pc;
    match outcome
    case Refused => pc == Ready && SessionOf(w, t).flag in w.raised
    case Poisoned => (pc == Parked || pc == Draining) && SessionOf(w, t).closed
    case LockError => pc == Permitted && SessionOf(w, t).workspace.Some?
    case Cancelled => pc == Checked || pc == Parked || pc == Permitted || pc == Draining
    case Finished => pc == Unlocked || pc == Drained
  }

  lemma EndHasCause(w: World, a: Action, t: TaskId)
    requires Enabled(w, a) && t in w.tasks && t in Apply(w, a).tasks && w.tasks[t].session in w.sessions
    requires !w.tasks[t].pc.Ended? && Apply(w, a).tasks[t].pc.Ended?
    ensures Causes(w, t, Apply(w, a).tasks[t].pc.outcome)
  {
  }

  /** The step at which a task came to its end. */
  ghost predicate EndsAt(ws: seq<World>, k: nat, t: TaskId, outcome: CallOutcome) {
    && k + 1 < |ws| && t in ws[k].tasks && t in ws[k + 1].tasks && ws[k].tasks[t].session in ws[k].sessions
    && !ws[k].tasks[t].pc.Ended? && ws[k + 1].tasks[t].pc == Ended(outcome) && Causes(ws[k], t, outcome)
  }

  lemma EndedBefore(w: World, a: Action, t: TaskId)
    requires Enabled(w, a) && t in Apply(w, a).tasks && Apply(w, a).tasks[t].pc.Ended?
    ensures t in w.tasks && (w.tasks[t].pc.Ended? ==> w.tasks[t].pc == Apply(w, a).tasks[t].pc)
    ensures !w.tasks[t].pc.Ended? ==> w.tasks[t].session in w.sessions
  {
    if Mover(a).Some? {
      MoverMoves(w, a);
    }
  }

  /** In every run a call that has ended did so at a step that had the cause of its outcome. */
  lemma {:induction false} OutcomeHasCause(ws: seq<World>, j: nat, t: TaskId) returns (k: nat)
    requires IsRun(ws) && j < |ws| && t in ws[j].tasks && ws[j].tasks[t].pc.Ended?
    ensures k < j && EndsAt(ws, k, t, ws[j].tasks[t].pc.outcome)
  {
    if j == 0 {
      RunStarts(ws);
      assert false;
    } else {
      RunStep(ws, j - 1);
      var a := NextAction(ws[j - 1], ws[j]);
      EndedBefore(ws[j - 1], a, t);
      if ws[j - 1].tasks[t].pc.Ended? {
        k := OutcomeHasCause(ws, j - 1, t);
      } else {
        k := j - 1;
        EndHasCause(ws[j - 1], a, t);
      }
    }
  }

  /** A mutation is refused exactly when its session's own flag is set at the check; otherwise it goes on. */
  lemma CheckDecides(w: World, t: TaskId)
    requires Enabled(w, CheckFlag(t))
    ensures var w' := Apply(w, CheckFlag(t));
            && w'.tasks[t].pc == (if SessionOf(w, t).flag in w.raised then Ended(Refused) else Checked)
            && w'.sessions == w.sessions && w'.locks == w.locks && w'.raised == w.raised
  {
  }

  // ---- Every move a call can make ----

  /** The permit of the session can be taken. */
  predicate PermitOpen(session: Session) {
    !session.closed && session.free > 0
  }

  /** The store has no write lock, or nobody holds it. */
  predicate LockOpen(w: World, workspace: Option<Workspace>) {
    workspace.None? || workspace.value !in w.locks
  }

  /** Where a call of the session can go from where it stands. */
  predicate CanGo(w: World, session: Session, pc: Pc, pc': Pc) {
    match pc
    case Ready =>
      || (pc' == Checked && session.flag !in w.raised)
      || (pc' == Ended(Refused) && session.flag in w.raised)
      || pc' == Draining
    case Checked => pc' == Parked || pc' == Ended(Cancelled)
    case Parked =>
      || (pc' == Permitted && PermitOpen(session))
      || (pc' == Ended(Poisoned) && session.closed)
      || pc' == Ended(Cancelled)
    case Permitted =>
      || (pc' == Mutating && LockOpen(w, session.workspace))
      || (pc' == Ended(LockError) && session.workspace.Some?)
      || pc' == Ended(Cancelled)
    case Mutating => pc' == Unlocked
    case Unlocked => pc' == Ended(Finished)
    case Draining =>
      || (pc' == Drained && PermitOpen(session))
      || (pc' == Ended(Poisoned) && session.closed)
      || pc' == Ended(Cancelled)
    case Drained => pc' == Ended(Finished)
    case Ended(_) => false
  }

  /** The step moves the call there. */
  predicate Brings(w: World, a: Action, t: TaskId, pc: Pc) {
    Enabled(w, a) && t in Apply(w, a).tasks && Apply(w, a).tasks[t].pc == pc
  }

  lemma BringsOnlyAllowed(w: World, a: Action, t: TaskId, pc: Pc)
    requires t in w.tasks && w.tasks[t].session in w.sessions && pc != w.tasks[t].pc && Brings(w, a, t, pc)
    ensures CanGo(w, SessionOf(w, t), w.tasks[t].pc, pc)
  {
    if Mover(a).Some? {
      MoverMoves(w, a);
    }
  }

  function StepTo(w: World, t: TaskId, pc: Pc): Action
    requires t in w.tasks && w.tasks[t].session in w.sessions
  {
    match pc
    case Checked => CheckFlag(t)
    case Parked => Park(t)
    case Permitted => Grant(t)
    case Mutating => if SessionOf(w, t).workspace.Some? then TakeLock(t) else BundleInMemory(t)
    case Unlocked => DropLock(t)
    case Draining => CallShutdown(t)
    case Drained => Grant(t)
    case Ended(Refused) => CheckFlag(t)
    case Ended(Poisoned) => FindClosed(t)
    case Ended(LockError) => FailLock(t)
    case Ended(Cancelled) => CancelWait(t)
    case Ended(Finished) => DropPermit(t)
    case Ready => CheckFlag(t)
  }

  lemma AllowedIsBrought(w: World, t: TaskId, pc: Pc)
    requires t in w.tasks && w.tasks[t].session in w.sessions
    requires CanGo(w, SessionOf(w, t), w.tasks[t].pc, pc)
    ensures Brings(w, StepTo(w, t, pc), t, pc)
  {
  }

  /** A step moves a call exactly as the table allows, whatever the world: no move is missing, and none is too many. */
  lemma MovesExactly(w: World, t: TaskId, pc: Pc)
    requires t in w.tasks && w.tasks[t].session in w.sessions && pc != w.tasks[t].pc
    ensures (exists a :: Brings(w, a, t, pc)) <==> CanGo(w, SessionOf(w, t), w.tasks[t].pc, pc)
  {
    if CanGo(w, SessionOf(w, t), w.tasks[t].pc, pc) {
      AllowedIsBrought(w, t, pc);
    }
    forall a | Brings(w, a, t, pc)
      ensures CanGo(w, SessionOf(w, t), w.tasks[t].pc, pc)
    {
      BringsOnlyAllowed(w, a, t, pc);
    }
  }

  // ---- Sessions ----

  /** A session opens with one free permit, and with the process, the workspace and the flag it is given. */
  lemma OpensAsGiven(w: World, s: SessionId, p: ProcessId, workspace: Option<Workspace>, flag: FlagId)
    requires Enabled(w, OpenSession(s, p, workspace, flag))
    ensures var w' := Apply(w, OpenSession(s, p, workspace, flag));
            && s in w'.sessions && w'.sessions[s] == Session(p, workspace, flag, 1, false)
            && (forall r | r in w.sessions :: r in w'.sessions && w'.sessions[r] == w.sessions[r])
            && w'.tasks == w.tasks && w'.locks == w.locks && w'.raised == w.raised
  {
  }

  /** What a session was opened with stays; its semaphore closes only by its own closing, and stays closed. */
  lemma SessionStays(w: World, a: Action, s: SessionId)
    requires Enabled(w, a) && s in w.sessions && s in Apply(w, a).sessions
    ensures var before, after := w.sessions[s], Apply(w, a).sessions[s];
            && after.process == before.process && after.workspace == before.workspace && after.flag == before.flag
            && (after.closed <==> before.closed || a == CloseSemaphore(s))
  {
  }

  // ---- What raises a flag ----

  /** A shutdown call of a session that reads the flag, or the signal thread of a process whose flag it is. */
  predicate Raises(w: World, a: Action, flag: FlagId) {
    match a
    case CallShutdown(t) => t in w.tasks && w.tasks[t].session in w.sessions && SessionOf(w, t).flag == flag
    case SetFlag(p) => p in w.processes && w.processes[p].flag == flag && w.processes[p].signalled != 0
    case _ => false
  }

  lemma RaiseHasCause(w: World, a: Action, flag: FlagId)
    requires Inv(w) && Enabled(w, a) && flag !in w.raised && flag in Apply(w, a).raised
    ensures Raises(w, a, flag)
  {
    if a.SetFlag? {
      assert SignalOk(w, w.processes[a.p]);
    }
  }

  ghost predicate RaisedAt(ws: seq<World>, k: nat, flag: FlagId) {
    && k + 1 < |ws| && flag !in ws[k].raised
    && exists a :: Enabled(ws[k], a) && ws[k + 1] == Apply(ws[k], a) && Raises(ws[k], a, flag)
  }

  /** In every run a raised flag was raised by such a step, while it was clear. */
  lemma {:induction false} RaisedHasCause(ws: seq<World>, j: nat, flag: FlagId) returns (k: nat)
    requires IsRun(ws) && j < |ws| && flag in ws[j].raised
    ensures k < j && RaisedAt(ws, k, flag)
  {
    if j == 0 {
      RunStarts(ws);
      assert false;
    } else if flag in ws[j - 1].raised {
      k := RaisedHasCause(ws, j - 1, flag);
    } else {
      k := j - 1;
      RunKeepsInv(ws, k);
      RunStep(ws, k);
      var a := NextAction(ws[k], ws[j]);
      RaiseHasCause(ws[k], a, flag);
    }
  }

  // ---- Signals ----

  /** The first signal records its code; a later one ends the process with the recorded code. */
  lemma SignalDecides(w: World, p: ProcessId, signo: int)
    requires Enabled(w, Signal(p, signo))
    ensures var before, after := w.processes[p], Apply(w, Signal(p, signo)).processes[p];
            if before.signalled == 0 then after.signalled == SignalCode(signo) && after.exitCode.None?
            else after.exitCode == Some(before.signalled)
  {
  }

  /** The task belongs to a session of the process. */
  predicate Belongs(w: World, t: TaskId, p: ProcessId) {
    t in w.tasks && w.tasks[t].session in w.sessions && SessionOf(w, t).process == p
  }

  /** A process that exits takes exactly its own sessions, tasks and locks along. */
  lemma ExitTakesOwnOnly(w: World, p: ProcessId, code: nat)
    requires p in w.processes
    ensures var w' := Exit(w, p, code);
            && (forall s :: s in w'.sessions <==> s in w.sessions && w.sessions[s].process != p)
            && (forall s | s in w'.sessions :: w'.sessions[s] == w.sessions[s])
            && (forall t :: t in w'.tasks <==> t in w.tasks && !Belongs(w, t, p))
            && (forall t | t in w'.tasks :: w'.tasks[t] == w.tasks[t])
            && (forall k :: k in w'.locks <==> k in w.locks && !Belongs(w, w.locks[k], p))
            && (forall k | k in w'.locks :: w'.locks[k] == w.locks[k])
            && (forall q | q != p :: q in w'.processes <==> q in w.processes)
            && (forall q | q != p && q in w.processes :: w'.processes[q] == w.processes[q])
            && w'.raised == w.raised
  {
  }
}
