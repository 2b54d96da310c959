/**
 * The write protocol: one permit per session, one write lock per workspace nested inside it, and
 * shutdown flags, a session's own or the one that its process's signal thread sets. Every await is
 * a step of its own, so every interleaving of processes, sessions, tasks, cancellations and signals
 * is a run of this machine.
 */
module WriteProtocol {
  import opened Wrappers

  type ProcessId = nat
  type SessionId = nat
  type TaskId = nat
  type Workspace = nat
  type FlagId = nat

  const WRITE_PERMITS: nat := 1

  /** Where a call stands. A task makes one call: a mutation, or the drain of a session shutdown. */
  datatype Pc =
    | Ready                 // not called yet
    | Checked               // mutation: has read the shutdown flag as clear
    | Parked                // mutation: waits for the permit
    | Permitted             // mutation: holds the permit, waits for the write lock
    | Mutating              // mutation: holds its mutation guard
    | Unlocked              // mutation: the guard has dropped its lock and still holds the permit
    | Draining              // shutdown: waits for the permit
    | Drained               // shutdown: holds the permit
    | Ended(outcome: CallOutcome)

  datatype CallOutcome = Refused | Poisoned | LockError | Cancelled | Finished

  datatype Task = Task(session: SessionId, pc: Pc)

  /**
   * `workspace` is None for an in-memory store, which has no write lock. `flag` is the session's own
   * shutdown flag, or the signal flag of its process when the session is wired to it.
   */
  datatype Session = Session(process: ProcessId, workspace: Option<Workspace>, flag: FlagId, free: nat, closed: bool)

  /** What the signal thread does next: wait, fire the token, set the flag. */
  datatype SignalThread = Waiting | Recorded | TokenFired

  datatype Process = Process(
    signalled: nat, tokenCancelled: bool, flag: FlagId, thread: SignalThread, exitCode: Option<nat>)

  /**
   * `locks` maps each locked workspace to the task that holds its lock; `flags` are the shutdown
   * flags made so far, and `raised` those of them that are set.
   */
  datatype World = World(
    processes: map<ProcessId, Process>,
    sessions: map<SessionId, Session>,
    tasks: map<TaskId, Task>,
    locks: map<Workspace, TaskId>,
    flags: set<FlagId>,
    raised: set<FlagId>)

  const EMPTY := World(map[], map[], map[], map[], {}, {})

  predicate InMutation(pc: Pc) {
    pc.Checked? || pc.Parked? || pc.Permitted? || pc.Mutating? || pc.Unlocked?
  }

  predicate HoldsPermit(pc: Pc) {
    pc.Permitted? || pc.Mutating? || pc.Unlocked? || pc.Drained?
  }

  // ---- Steps ----

  datatype Action =
    | StartProcess(p: ProcessId, flag: FlagId)
    | OpenSession(s: SessionId, p: ProcessId, workspace: Option<Workspace>, flag: FlagId)
    | Spawn(t: TaskId, s: SessionId)
    | CheckFlag(t: TaskId)
    | Park(t: TaskId)
    | Grant(t: TaskId)
    | FindClosed(t: TaskId)
    | TakeLock(t: TaskId)
    | BundleInMemory(t: TaskId)
    | FailLock(t: TaskId)
    | CancelWait(t: TaskId)
    | DropLock(t: TaskId)
    | DropPermit(t: TaskId)
    | CallShutdown(t: TaskId)
    | CloseSemaphore(s: SessionId)
    | Signal(p: ProcessId, signo: int)
    | FireToken(p: ProcessId)
    | SetFlag(p: ProcessId)

  predicate AtPc(w: World, t: TaskId, pc: Pc) {
    t in w.tasks && w.tasks[t].session in w.sessions && w.tasks[t].pc == pc
  }

  predicate Alive(w: World, p: ProcessId) {
    p in w.processes && w.processes[p].exitCode.None?
  }

  function SessionOf(w: World, t: TaskId): Session
    requires t in w.tasks && w.tasks[t].session in w.sessions
  {
    w.sessions[w.tasks[t].session]
  }

  /** When a step can be taken. */
  predicate Enabled(w: World, a: Action) {
    match a
    case StartProcess(p, flag) => p !in w.processes && flag !in w.flags
    case OpenSession(s, p, _, flag) =>
      s !in w.sessions && Alive(w, p) && (flag !in w.flags || flag == w.processes[p].flag)
    case Spawn(t, s) => t !in w.tasks && s in w.sessions
    case CheckFlag(t) => AtPc(w, t, Ready)
    case Park(t) => AtPc(w, t, Checked)
    case Grant(t) => (AtPc(w, t, Parked) || AtPc(w, t, Draining)) && !SessionOf(w, t).closed && SessionOf(w, t).free > 0
    case FindClosed(t) => (AtPc(w, t, Parked) || AtPc(w, t, Draining)) && SessionOf(w, t).closed
    case TakeLock(t) =>
      AtPc(w, t, Permitted) && SessionOf(w, t).workspace.Some? && SessionOf(w, t).workspace.value !in w.locks
    case BundleInMemory(t) => AtPc(w, t, Permitted) && SessionOf(w, t).workspace.None?
    case FailLock(t) => AtPc(w, t, Permitted) && SessionOf(w, t).workspace.Some?
    case CancelWait(t) => AtPc(w, t, Checked) || AtPc(w, t, Parked) || AtPc(w, t, Permitted) || AtPc(w, t, Draining)
    case DropLock(t) => AtPc(w, t, Mutating)
    case DropPermit(t) => AtPc(w, t, Unlocked) || AtPc(w, t, Drained)
    case CallShutdown(t) => AtPc(w, t, Ready)
    case CloseSemaphore(s) => s in w.sessions
    case Signal(p, _) => Alive(w, p) && w.processes[p].thread == Waiting
    case FireToken(p) => Alive(w, p) && w.processes[p].thread == Recorded
    case SetFlag(p) => Alive(w, p) && w.processes[p].thread == TokenFired
  }

  function Move(w: World, t: TaskId, pc: Pc): World
    requires t in w.tasks
  {
    w.(tasks := w.tasks[t := w.tasks[t].(pc := pc)])
  }

  function TakePermit(w: World, s: SessionId): World
    requires s in w.sessions && w.sessions[s].free > 0
  {
    w.(sessions := w.sessions[s := w.sessions[s].(free := w.sessions[s].free - 1)])
  }

  function ReturnPermit(w: World, s: SessionId): World
    requires s in w.sessions
  {
    w.(sessions := w.sessions[s := w.sessions[s].(free := w.sessions[s].free + 1)])
  }

  predicate FlagSet(w: World, flag: FlagId) {
    flag in w.raised
  }

  function Raise(w: World, flag: FlagId): World {
    w.(raised := w.raised + {flag})
  }

  function WithProcess(w: World, p: ProcessId, process: Process): World {
    w.(processes := w.processes[p := process])
  }

  /** 128 plus the signal number, in the eight bits of an exit code; a number that does not fit counts as 0. */
  function SignalCode(signo: int): (code: nat)
    ensures 128 <= code <= 255
    ensures 0 <= signo <= 127 ==> code == 128 + signo
    ensures 128 <= signo <= 255 ==> code == 255
    ensures signo < 0 || signo > 255 ==> code == 128
  {
    var n := if 0 <= signo < 256 then signo else 0;
    if 128 + n > 255 then 255 else 128 + n
  }

  /** The process is gone with its sessions and tasks; the system frees the locks they held. */
  function Exit(w: World, p: ProcessId, code: nat): World
    requires p in w.processes
  {
    var gone := set t | t in w.tasks && w.tasks[t].session in w.sessions && SessionOf(w, t).process == p;
    World(
      w.processes[p := w.processes[p].(exitCode := Some(code))],
      map s | s in w.sessions && w.sessions[s].process != p :: w.sessions[s],
      map t | t in w.tasks && t !in gone :: w.tasks[t],
      map k | k in w.locks && w.locks[k] !in gone :: w.locks[k],
      w.flags,
      w.raised)
  }

  function Apply(w: World, a: Action): World
    requires Enabled(w, a)
  {
    match a
    case StartProcess(p, flag) =>
      WithProcess(w, p, Process(0, false, flag, Waiting, None)).(flags := w.flags + {flag})
    case OpenSession(s, p, workspace, flag) =>
      w.(sessions := w.sessions[s := Session(p, workspace, flag, WRITE_PERMITS, false)], flags := w.flags + {flag})
    case Spawn(t, s) => w.(tasks := w.tasks[t := Task(s, Ready)])
    case CheckFlag(t) => Move(w, t, if FlagSet(w, SessionOf(w, t).flag) then Ended(Refused) else Checked)
    case Park(t) => Move(w, t, Parked)
    case Grant(t) =>
      TakePermit(Move(w, t, if w.tasks[t].pc.Parked? then Permitted else Drained), w.tasks[t].session)
    case FindClosed(t) => Move(w, t, Ended(Poisoned))
    case TakeLock(t) => Move(w, t, Mutating).(locks := w.locks[SessionOf(w, t).workspace.value := t])
    case BundleInMemory(t) => Move(w, t, Mutating)
    case FailLock(t) => ReturnPermit(Move(w, t, Ended(LockError)), w.tasks[t].session)
    case CancelWait(t) =>
      var w' := Move(w, t, Ended(Cancelled));
      if w.tasks[t].pc.Permitted? then ReturnPermit(w', w.tasks[t].session) else w'
    case DropLock(t) =>
      var w' := Move(w, t, Unlocked);
      (match SessionOf(w, t).workspace
       case Some(k) => w'.(locks := w.locks - {k})
       case None => w')
    case DropPermit(t) => ReturnPermit(Move(w, t, Ended(Finished)), w.tasks[t].session)
    case CallShutdown(t) => Raise(Move(w, t, Draining), SessionOf(w, t).flag)
    case CloseSemaphore(s) => w.(sessions := w.sessions[s := w.sessions[s].(closed := true)])
    case Signal(p, signo) =>
      var process := w.processes[p];
      if process.signalled == 0 then
        WithProcess(w, p, process.(signalled := SignalCode(signo), thread := Recorded))
      else Exit(w, p, process.signalled)
    case FireToken(p) => WithProcess(w, p, w.processes[p].(tokenCancelled := true, thread := TokenFired))
    case SetFlag(p) => Raise(WithProcess(w, p, w.processes[p].(thread := Waiting)), w.processes[p].flag)
  }

  // ---- Runs ----

  ghost predicate Next(w: World, w': World) {
    exists a :: Enabled(w, a) && w' == Apply(w, a)
  }

  /** Any finite interleaving, from a world without processes. */
  ghost predicate IsRun(ws: seq<World>)
    decreases |ws|
  {
    && ws != []
    && if |ws| == 1 then ws[0] == EMPTY
       else IsRun(ws[..|ws| - 1]) && Next(ws[|ws| - 2], ws[|ws| - 1])
  }

  lemma {:induction false} RunStep(ws: seq<World>, i: nat)
    requires IsRun(ws) && i + 1 < |ws|
    ensures Next(ws[i], ws[i + 1])
    decreases |ws|
  {
    if i + 2 < |ws| {
      RunStep(ws[..|ws| - 1], i);
    }
  }

  lemma {:induction false} RunStarts(ws: seq<World>)
    requires IsRun(ws)
    ensures ws[0] == EMPTY
    decreases |ws|
  {
    if |ws| > 1 {
      RunStarts(ws[..|ws| - 1]);
    }
  }

  // ---- The invariant ----

  function Holders(w: World, s: SessionId): set<TaskId> {
    set t | t in w.tasks && w.tasks[t].session == s && HoldsPermit(w.tasks[t].pc)
  }

  /** The task holds a file-backed mutation guard on the workspace. */
  predicate HoldsGuard(w: World, t: TaskId, k: Workspace) {
    t in w.tasks && w.tasks[t].pc.Mutating? && w.tasks[t].session in w.sessions && SessionOf(w, t).workspace == Some(k)
  }

  /** Every reference leads to something that is there. */
  ghost predicate Linked(w: World) {
    && (forall t | t in w.tasks :: w.tasks[t].session in w.sessions)
    && (forall s | s in w.sessions :: Alive(w, w.sessions[s].process))
  }

  /** One permit per session: free with no holder, or held by one task. */
  ghost predicate PermitOk(w: World, s: SessionId)
    requires s in w.sessions
  {
    if w.sessions[s].free == 0 then exists t :: Holders(w, s) == {t}
    else w.sessions[s].free == 1 && Holders(w, s) == {}
  }

  ghost predicate PermitsOk(w: World) {
    forall s | s in w.sessions :: PermitOk(w, s)
  }

  /** The lock table lists exactly the file-backed guards. */
  ghost predicate LocksOk(w: World) {
    && (forall k | k in w.locks :: HoldsGuard(w, w.locks[k], k))
    && (forall t, k | HoldsGuard(w, t, k) :: k in w.locks && w.locks[k] == t)
  }

  /** The token is fired and the flag set by the time the thread waits again after a first signal. */
  ghost predicate SignalOk(w: World, process: Process) {
    && (process.thread.Waiting? && process.signalled != 0 ==> process.tokenCancelled && FlagSet(w, process.flag))
    && (process.thread.Recorded? ==> process.signalled != 0)
    && (process.thread.TokenFired? ==> process.signalled != 0 && process.tokenCancelled)
    && (process.tokenCancelled ==> process.signalled != 0)
    && (process.exitCode.Some? ==> process.exitCode.value == process.signalled && process.signalled != 0)
  }

  ghost predicate SignalsOk(w: World) {
    forall p | p in w.processes :: SignalOk(w, w.processes[p])
  }

  ghost predicate Inv(w: World) {
    Linked(w) && PermitsOk(w) && LocksOk(w) && SignalsOk(w)
  }

  lemma HoldersAfterMove(w: World, t: TaskId, pc: Pc, s: SessionId)
    requires t in w.tasks
    ensures Holders(Move(w, t, pc), s) ==
            if s != w.tasks[t].session then Holders(w, s)
            else if HoldsPermit(pc) then Holders(w, s) + {t}
            else Holders(w, s) - {t}
  {
  }

  /** Whoever holds a permit is the one holder of its session's permit. */
  lemma OnlyHolder(w: World, t: TaskId)
    requires Inv(w) && t in w.tasks && HoldsPermit(w.tasks[t].pc)
    ensures SessionOf(w, t).free == 0 && Holders(w, w.tasks[t].session) == {t}
  {
    assert t in Holders(w, w.tasks[t].session);
    assert PermitOk(w, w.tasks[t].session);
  }

  /** A move that neither takes nor gives up a permit or a guard. */
  lemma QuietMove(w: World, t: TaskId, pc: Pc)
    requires Inv(w) && t in w.tasks && !w.tasks[t].pc.Mutating? && !pc.Mutating?
    requires HoldsPermit(w.tasks[t].pc) == HoldsPermit(pc)
    ensures Inv(Move(w, t, pc))
  {
    var w' := Move(w, t, pc);
    forall s | s in w'.sessions
      ensures PermitOk(w', s)
    {
      HoldersAfterMove(w, t, pc, s);
      assert PermitOk(w, s);
      assert Holders(w', s) == Holders(w, s);
    }
    SameGuards(w, w');
  }

  /** The lock table stays right when no guard comes or goes. */
  lemma SameGuards(w: World, w': World)
    requires LocksOk(w) && w'.locks == w.locks
    requires forall t, k :: HoldsGuard(w', t, k) <==> HoldsGuard(w, t, k)
    ensures LocksOk(w')
  {
  }

  lemma GrantKeeps(w: World, t: TaskId)
    requires Inv(w) && Enabled(w, Grant(t))
    ensures Inv(Apply(w, Grant(t)))
  {
    var w' := Apply(w, Grant(t));
    var pc := if w.tasks[t].pc.Parked? then Permitted else Drained;
    assert w'.tasks == Move(w, t, pc).tasks;
    forall s | s in w'.sessions
      ensures PermitOk(w', s)
    {
      HoldersAfterMove(w, t, pc, s);
      assert PermitOk(w, s);
      assert Holders(w', s) == Holders(Move(w, t, pc), s);
      if s == w.tasks[t].session {
        assert Holders(w', s) == {t};
      }
    }
    SameGuards(w, w');
  }

  /** Giving up a permit from outside a guard. */
  lemma ReleaseKeeps(w: World, t: TaskId, pc: Pc)
    requires Inv(w) && t in w.tasks && HoldsPermit(w.tasks[t].pc) && !w.tasks[t].pc.Mutating?
    requires !HoldsPermit(pc)
    ensures Inv(ReturnPermit(Move(w, t, pc), w.tasks[t].session))
  {
    var w' := ReturnPermit(Move(w, t, pc), w.tasks[t].session);
    OnlyHolder(w, t);
    forall s | s in w'.sessions
      ensures PermitOk(w', s)
    {
      HoldersAfterMove(w, t, pc, s);
      assert PermitOk(w, s);
      assert Holders(w', s) == Holders(Move(w, t, pc), s);
    }
    SameGuards(w, w');
  }

  lemma HoldersAfterGuardMove(w: World, w': World, t: TaskId, pc: Pc)
    requires Inv(w) && t in w.tasks && HoldsPermit(w.tasks[t].pc) && HoldsPermit(pc)
    requires w'.tasks == Move(w, t, pc).tasks && w'.sessions == w.sessions
    ensures PermitsOk(w')
  {
    forall s | s in w'.sessions
      ensures PermitOk(w', s)
    {
      HoldersAfterMove(w, t, pc, s);
      assert PermitOk(w, s);
      assert Holders(w', s) == Holders(w, s);
    }
  }

  lemma TakeLockKeeps(w: World, t: TaskId)
    requires Inv(w) && Enabled(w, TakeLock(t))
    ensures Inv(Apply(w, TakeLock(t)))
  {
    var w' := Apply(w, TakeLock(t));
    HoldersAfterGuardMove(w, w', t, Mutating);
    var mine := SessionOf(w, t).workspace.value;
    forall k | k in w'.locks
      ensures HoldsGuard(w', w'.locks[k], k)
    {
      assert k != mine ==> HoldsGuard(w, w.locks[k], k);
    }
    forall t', k | HoldsGuard(w', t', k)
      ensures k in w'.locks && w'.locks[k] == t'
    {
      assert t' != t ==> HoldsGuard(w, t', k);
    }
  }

  lemma BundleKeeps(w: World, t: TaskId)
    requires Inv(w) && Enabled(w, BundleInMemory(t))
    ensures Inv(Apply(w, BundleInMemory(t)))
  {
    var w' := Apply(w, BundleInMemory(t));
    HoldersAfterGuardMove(w, w', t, Mutating);
    SameGuards(w, w');
  }

  lemma DropLockKeeps(w: World, t: TaskId)
    requires Inv(w) && Enabled(w, DropLock(t))
    ensures Inv(Apply(w, DropLock(t)))
  {
    var w' := Apply(w, DropLock(t));
    HoldersAfterGuardMove(w, w', t, Unlocked);
    forall k | k in w'.locks
      ensures HoldsGuard(w', w'.locks[k], k)
    {
      assert HoldsGuard(w, w.locks[k], k);
    }
    forall t', k | HoldsGuard(w', t', k)
      ensures k in w'.locks && w'.locks[k] == t'
    {
      assert HoldsGuard(w, t', k);
      assert SessionOf(w, t).workspace.Some? ==> HoldsGuard(w, t, SessionOf(w, t).workspace.value);
    }
  }

  /** Steps that leave tasks, permits and locks alone. */
  lemma ProcessKeeps(w: World, w': World)
    requires Inv(w) && w'.tasks == w.tasks && w'.sessions == w.sessions && w'.locks == w.locks
    requires forall p | Alive(w, p) :: Alive(w', p)
    requires SignalsOk(w')
    ensures Inv(w')
  {
    forall s | s in w'.sessions
      ensures PermitOk(w', s)
    {
      assert PermitOk(w, s) && Holders(w', s) == Holders(w, s);
    }
    SameGuards(w, w');
  }

  lemma OpenSessionKeeps(w: World, s: SessionId, p: ProcessId, workspace: Option<Workspace>, flag: FlagId)
    requires Inv(w) && Enabled(w, OpenSession(s, p, workspace, flag))
    ensures Inv(Apply(w, OpenSession(s, p, workspace, flag)))
  {
    var w' := Apply(w, OpenSession(s, p, workspace, flag));
    forall s' | s' in w'.sessions
      ensures PermitOk(w', s')
    {
      assert Holders(w', s') == Holders(w, s');
      assert s' in w.sessions ==> PermitOk(w, s');
    }
    SameGuards(w, w');
  }

  lemma SpawnKeeps(w: World, t: TaskId, s: SessionId)
    requires Inv(w) && Enabled(w, Spawn(t, s))
    ensures Inv(Apply(w, Spawn(t, s)))
  {
    var w' := Apply(w, Spawn(t, s));
    forall s' | s' in w'.sessions
      ensures PermitOk(w', s')
    {
      assert Holders(w', s') == Holders(w, s') && PermitOk(w, s');
    }
    SameGuards(w, w');
  }

  lemma CloseKeeps(w: World, s: SessionId)
    requires Inv(w) && Enabled(w, CloseSemaphore(s))
    ensures Inv(Apply(w, CloseSemaphore(s)))
  {
    var w' := Apply(w, CloseSemaphore(s));
    forall s' | s' in w'.sessions
      ensures PermitOk(w', s')
    {
      assert Holders(w', s') == Holders(w, s') && PermitOk(w, s');
    }
    SameGuards(w, w');
  }

  lemma ExitKeeps(w: World, p: ProcessId)
    requires Inv(w) && Alive(w, p) && w.processes[p].signalled != 0
    ensures Inv(Exit(w, p, w.processes[p].signalled))
  {
    var w' := Exit(w, p, w.processes[p].signalled);
    forall s | s in w'.sessions
      ensures PermitOk(w', s)
    {
      assert PermitOk(w, s);
      assert Holders(w', s) == Holders(w, s);
    }
    forall k | k in w'.locks
      ensures HoldsGuard(w', w'.locks[k], k)
    {
      assert HoldsGuard(w, w.locks[k], k);
    }
    forall t, k | HoldsGuard(w', t, k)
      ensures k in w'.locks && w'.locks[k] == t
    {
      assert HoldsGuard(w, t, k);
    }
  }

  lemma ShutdownKeeps(w: World, t: TaskId)
    requires Inv(w) && Enabled(w, CallShutdown(t))
    ensures Inv(Apply(w, CallShutdown(t)))
  {
    QuietMove(w, t, Draining);
    ProcessKeeps(Move(w, t, Draining), Apply(w, CallShutdown(t)));
  }

  lemma CheckFlagKeeps(w: World, t: TaskId)
    requires Inv(w) && Enabled(w, CheckFlag(t))
    ensures Inv(Apply(w, CheckFlag(t)))
  {
    QuietMove(w, t, if FlagSet(w, SessionOf(w, t).flag) then Ended(Refused) else Checked);
  }

  lemma ParkKeeps(w: World, t: TaskId)
    requires Inv(w) && Enabled(w, Park(t))
    ensures Inv(Apply(w, Park(t)))
  {
    QuietMove(w, t, Parked);
  }

  lemma FindClosedKeeps(w: World, t: TaskId)
    requires Inv(w) && Enabled(w, FindClosed(t))
    ensures Inv(Apply(w, FindClosed(t)))
  {
    QuietMove(w, t, Ended(Poisoned));
  }

  lemma ReleaseStepKeeps(w: World, a: Action, t: TaskId)
    requires Inv(w) && Enabled(w, a) && (a == FailLock(t) || a == DropPermit(t))
    ensures Inv(Apply(w, a))
  {
    ReleaseKeeps(w, t, if a == FailLock(t) then Ended(LockError) else Ended(Finished));
  }

  lemma CancelKeeps(w: World, t: TaskId)
    requires Inv(w) && Enabled(w, CancelWait(t))
    ensures Inv(Apply(w, CancelWait(t)))
  {
    if w.tasks[t].pc.Permitted? {
      ReleaseKeeps(w, t, Ended(Cancelled));
    } else {
      QuietMove(w, t, Ended(Cancelled));
    }
  }

  lemma SignalKeeps(w: World, p: ProcessId, signo: int)
    requires Inv(w) && Enabled(w, Signal(p, signo))
    ensures Inv(Apply(w, Signal(p, signo)))
  {
    if w.processes[p].signalled == 0 {
      ProcessKeeps(w, Apply(w, Signal(p, signo)));
    } else {
      ExitKeeps(w, p);
    }
  }

  lemma ThreadKeeps(w: World, a: Action)
    requires Inv(w) && Enabled(w, a) && (a.StartProcess? || a.FireToken? || a.SetFlag?)
    ensures Inv(Apply(w, a))
  {
    ProcessKeeps(w, Apply(w, a));
  }

  /** The task that a step moves, if it moves one. */
  function Mover(a: Action): Option<TaskId> {
    match a
    case CheckFlag(t) => Some(t)
    case Park(t) => Some(t)
    case Grant(t) => Some(t)
    case FindClosed(t) => Some(t)
    case TakeLock(t) => Some(t)
    case BundleInMemory(t) => Some(t)
    case FailLock(t) => Some(t)
    case CancelWait(t) => Some(t)
    case DropLock(t) => Some(t)
    case DropPermit(t) => Some(t)
    case CallShutdown(t) => Some(t)
    case _ => None
  }

  lemma TaskStepKeepsInv(w: World, a: Action)
    requires Inv(w) && Enabled(w, a) && Mover(a).Some?
    ensures Inv(Apply(w, a))
  {
    match a
    case CheckFlag(t) => CheckFlagKeeps(w, t);
    case Park(t) => ParkKeeps(w, t);
    case Grant(t) => GrantKeeps(w, t);
    case FindClosed(t) => FindClosedKeeps(w, t);
    case TakeLock(t) => TakeLockKeeps(w, t);
    case BundleInMemory(t) => BundleKeeps(w, t);
    case FailLock(t) => ReleaseStepKeeps(w, a, t);
    case CancelWait(t) => CancelKeeps(w, t);
    case DropLock(t) => DropLockKeeps(w, t);
    case DropPermit(t) => ReleaseStepKeeps(w, a, t);
    case CallShutdown(t) => ShutdownKeeps(w, t);
  }

  /** Every step of every kind keeps the invariant. */
  lemma StepKeepsInv(w: World, a: Action)
    requires Inv(w) && Enabled(w, a)
    ensures Inv(Apply(w, a))
  {
    if Mover(a).Some? {
      TaskStepKeepsInv(w, a);
    } else {
      match a
      case OpenSession(s, p, workspace, flag) => OpenSessionKeeps(w, s, p, workspace, flag);
      case Spawn(t, s) => SpawnKeeps(w, t, s);
      case CloseSemaphore(s) => CloseKeeps(w, s);
      case Signal(p, signo) => SignalKeeps(w, p, signo);
      case _ => ThreadKeeps(w, a);
    }
  }

  /** The step that leads from one world to the next. */
  lemma NextAction(w: World, w': World) returns (a: Action)
    requires Next(w, w')
    ensures Enabled(w, a) && w' == Apply(w, a)
  {
    a :| Enabled(w, a) && w' == Apply(w, a);
  }

  lemma {:induction false} RunKeepsInv(ws: seq<World>, i: nat)
    requires IsRun(ws) && i < |ws|
    ensures Inv(ws[i])
  {
    if i == 0 {
      RunStarts(ws);
    } else {
      RunKeepsInv(ws, i - 1);
      RunStep(ws, i - 1);
      var a := NextAction(ws[i - 1], ws[i]);
      StepKeepsInv(ws[i - 1], a);
    }
  }

  // ---- Safety of every run ----

  /** Permits held plus permits free is one per open session. */
  lemma PermitsConserved(ws: seq<World>, i: nat, s: SessionId)
    requires IsRun(ws) && i < |ws| && s in ws[i].sessions
    ensures |Holders(ws[i], s)| + ws[i].sessions[s].free == WRITE_PERMITS
  {
    RunKeepsInv(ws, i);
    assert PermitOk(ws[i], s);
  }

  /** At most one file-backed mutation guard on a workspace, whatever sessions and processes share it. */
  lemma OneGuardPerWorkspace(ws: seq<World>, i: nat, t: TaskId, t': TaskId, k: Workspace)
    requires IsRun(ws) && i < |ws| && HoldsGuard(ws[i], t, k) && HoldsGuard(ws[i], t', k)
    ensures t == t'
  {
    RunKeepsInv(ws, i);
  }

  /** Whoever holds a workspace lock holds its session's permit, alone. */
  lemma LockInsidePermit(ws: seq<World>, i: nat, k: Workspace)
    requires IsRun(ws) && i < |ws| && k in ws[i].locks
    ensures var t := ws[i].locks[k];
            HoldsGuard(ws[i], t, k) && Holders(ws[i], ws[i].tasks[t].session) == {t}
  {
    RunKeepsInv(ws, i);
    assert HoldsGuard(ws[i], ws[i].locks[k], k);
    OnlyHolder(ws[i], ws[i].locks[k]);
  }

  /** A permit is only given back by a task that holds no lock any more. */
  lemma LockReleasedFirst(ws: seq<World>, i: nat, t: TaskId, k: Workspace)
    requires IsRun(ws) && i + 1 < |ws| && HoldsGuard(ws[i], t, k) && t in ws[i + 1].tasks
    ensures HoldsPermit(ws[i + 1].tasks[t].pc)
  {
    RunStep(ws, i);
    var a := NextAction(ws[i], ws[i + 1]);
    GuardOutlivesStep(ws[i], a, t, k);
  }

  lemma GuardOutlivesStep(w: World, a: Action, t: TaskId, k: Workspace)
    requires Enabled(w, a) && HoldsGuard(w, t, k) && t in Apply(w, a).tasks
    ensures HoldsPermit(Apply(w, a).tasks[t].pc)
  {
  }

  /** While a shutdown drain holds the permit, no mutation of its session is in its transaction. */
  lemma DrainSeesNoMutation(ws: seq<World>, i: nat, d: TaskId, t: TaskId)
    requires IsRun(ws) && i < |ws| && d in ws[i].tasks && ws[i].tasks[d].pc.Drained?
    requires t in ws[i].tasks && ws[i].tasks[t].session == ws[i].tasks[d].session
    ensures !ws[i].tasks[t].pc.Permitted? && !ws[i].tasks[t].pc.Mutating? && !ws[i].tasks[t].pc.Unlocked?
  {
    RunKeepsInv(ws, i);
    OnlyHolder(ws[i], d);
    assert t in Holders(ws[i], ws[i].tasks[d].session) ==> t == d;
  }

  // ---- No circular waiting ----

  predicate AwaitsPermit(pc: Pc) {
    pc.Parked? || pc.Draining?
  }

  /** `t` cannot go on before `u` gives up the permit or the lock that `t` waits for. */
  ghost predicate WaitsFor(w: World, t: TaskId, u: TaskId) {
    && t in w.tasks && u in w.tasks && w.tasks[t].session in w.sessions
    && (|| (AwaitsPermit(w.tasks[t].pc) && u in Holders(w, w.tasks[t].session))
        || (w.tasks[t].pc.Permitted? && SessionOf(w, t).workspace.Some?
            && HoldsGuard(w, u, SessionOf(w, t).workspace.value)))
  }

  function WaitRank(pc: Pc): nat {
    if AwaitsPermit(pc) then 2 else if pc.Permitted? then 1 else 0
  }

  ghost predicate WaitChain(w: World, chain: seq<TaskId>) {
    forall i | 0 <= i < |chain| - 1 :: WaitsFor(w, chain[i], chain[i + 1])
  }

  lemma {:induction false} WaitChainDescends(w: World, chain: seq<TaskId>)
    requires WaitChain(w, chain) && |chain| > 1
    ensures chain[0] in w.tasks && chain[|chain| - 1] in w.tasks
    ensures WaitRank(w.tasks[chain[|chain| - 1]].pc) < WaitRank(w.tasks[chain[0]].pc)
    decreases |chain|
  {
    assert WaitsFor(w, chain[0], chain[1]);
    if |chain| > 2 {
      WaitChainDescends(w, chain[1..]);
    }
  }

  /** No set of tasks waits for itself, in any world at all. */
  lemma NoWaitCycle(w: World, chain: seq<TaskId>)
    requires WaitChain(w, chain) && |chain| > 1
    ensures chain[0] != chain[|chain| - 1]
  {
    WaitChainDescends(w, chain);
  }

  /** A step that `t` itself takes, other than giving up. */
  predicate OwnStep(w: World, t: TaskId, a: Action) {
    Enabled(w, a) && (a == CheckFlag(t) || a == Park(t) || a == Grant(t) || a == FindClosed(t) || a == TakeLock(t)
                      || a == BundleInMemory(t) || a == DropLock(t) || a == DropPermit(t))
  }

  /** A call that has not ended can go on, or waits, through a chain, for a task that can. */
  lemma NobodyStuck(ws: seq<World>, i: nat, t: TaskId) returns (chain: seq<TaskId>, a: Action)
    requires IsRun(ws) && i < |ws| && t in ws[i].tasks && !ws[i].tasks[t].pc.Ended?
    ensures chain != [] && chain[0] == t && WaitChain(ws[i], chain)
    ensures OwnStep(ws[i], chain[|chain| - 1], a)
  {
    var w := ws[i];
    RunKeepsInv(ws, i);
    if AwaitsPermit(w.tasks[t].pc) && !SessionOf(w, t).closed && SessionOf(w, t).free == 0 {
      assert PermitOk(w, w.tasks[t].session);
      var u :| Holders(w, w.tasks[t].session) == {u};
      assert u in Holders(w, w.tasks[t].session) && WaitsFor(w, t, u);
      var rest;
      rest, a := HolderNotStuck(w, u);
      chain := [t] + rest;
      assert chain[1..] == rest;
    } else if w.tasks[t].pc.Ready? || w.tasks[t].pc.Checked? {
      chain, a := [t], if w.tasks[t].pc.Ready? then CheckFlag(t) else Park(t);
    } else if AwaitsPermit(w.tasks[t].pc) {
      assert PermitOk(w, w.tasks[t].session);
      chain, a := [t], if SessionOf(w, t).closed then FindClosed(t) else Grant(t);
    } else {
      chain, a := HolderNotStuck(w, t);
    }
  }

  lemma HolderNotStuck(w: World, t: TaskId) returns (chain: seq<TaskId>, a: Action)
    requires Inv(w) && t in w.tasks && HoldsPermit(w.tasks[t].pc)
    ensures chain != [] && chain[0] == t && WaitChain(w, chain)
    ensures OwnStep(w, chain[|chain| - 1], a)
  {
    chain := [t];
    match w.tasks[t].pc {
      case Permitted =>
        match SessionOf(w, t).workspace {
          case None => a := BundleInMemory(t);
          case Some(k) =>
            if k in w.locks {
              var u := w.locks[k];
              assert HoldsGuard(w, u, k) && WaitsFor(w, t, u);
              chain, a := [t, u], DropLock(u);
            } else {
              a := TakeLock(t);
            }
        }
      case Mutating => a := DropLock(t);
      case _ => a := DropPermit(t);
    }
  }

  // ---- Shutdown ----

  /** The mutations under way in the sessions that read the flag. */
  function MutationsUnder(w: World, flag: FlagId): set<TaskId> {
    set t | t in w.tasks && InMutation(w.tasks[t].pc)
            && w.tasks[t].session in w.sessions && SessionOf(w, t).flag == flag
  }

  lemma FlagStays(w: World, a: Action, flag: FlagId)
    requires Enabled(w, a) && FlagSet(w, flag)
    ensures FlagSet(Apply(w, a), flag)
  {
  }

  /** A step of a task moves that task alone, and out of a mutation unless it was in one or finds its flag clear. */
  lemma MoverMoves(w: World, a: Action)
    requires Enabled(w, a) && Mover(a).Some?
    ensures var t, w' := Mover(a).value, Apply(w, a);
            && t in w.tasks && w.tasks[t].session in w.sessions && t in w'.tasks
            && w'.tasks == Move(w, t, w'.tasks[t].pc).tasks
            && (InMutation(w'.tasks[t].pc) ==> InMutation(w.tasks[t].pc) || !FlagSet(w, SessionOf(w, t).flag))
  {
  }

  lemma MoverKeepsSessions(w: World, a: Action)
    requires Enabled(w, a) && Mover(a).Some?
    ensures Apply(w, a).sessions.Keys == w.sessions.Keys
  {
  }

  lemma MoverKeepsFlags(w: World, a: Action, s: SessionId)
    requires Enabled(w, a) && Mover(a).Some? && s in w.sessions && s in Apply(w, a).sessions
    ensures Apply(w, a).sessions[s].flag == w.sessions[s].flag
  {
  }

  lemma MoverOnlyDrains(w: World, a: Action, flag: FlagId)
    requires Inv(w) && Enabled(w, a) && FlagSet(w, flag) && Mover(a).Some?
    ensures MutationsUnder(Apply(w, a), flag) <= MutationsUnder(w, flag)
  {
    var w', t := Apply(w, a), Mover(a).value;
    MoverMoves(w, a);
    MoverKeepsSessions(w, a);
    forall u | u in MutationsUnder(w', flag)
      ensures u in MutationsUnder(w, flag)
    {
      assert u != t ==> w'.tasks[u] == w.tasks[u];
      assert w'.tasks[u].session == w.tasks[u].session;
      MoverKeepsFlags(w, a, w.tasks[u].session);
    }
  }

  lemma OtherStepOnlyDrains(w: World, a: Action, flag: FlagId)
    requires Inv(w) && Enabled(w, a) && Mover(a).None?
    ensures MutationsUnder(Apply(w, a), flag) <= MutationsUnder(w, flag)
  {
  }

  lemma StepOnlyDrains(w: World, w': World, flag: FlagId)
    requires Inv(w) && Next(w, w') && FlagSet(w, flag)
    ensures FlagSet(w', flag) && MutationsUnder(w', flag) <= MutationsUnder(w, flag)
  {
    var a := NextAction(w, w');
    FlagStays(w, a, flag);
    if Mover(a).Some? {
      MoverOnlyDrains(w, a, flag);
    } else {
      OtherStepOnlyDrains(w, a, flag);
    }
  }

  /** Once a flag is set no mutation starts under it any more: those under way only drain. */
  lemma {:induction false} MutationsOnlyDrain(ws: seq<World>, i: nat, j: nat, flag: FlagId)
    requires IsRun(ws) && i <= j < |ws| && FlagSet(ws[i], flag)
    ensures FlagSet(ws[j], flag) && MutationsUnder(ws[j], flag) <= MutationsUnder(ws[i], flag)
    decreases j - i
  {
    if i < j {
      MutationsOnlyDrain(ws, i, j - 1, flag);
      RunKeepsInv(ws, j - 1);
      RunStep(ws, j - 1);
      StepOnlyDrains(ws[j - 1], ws[j], flag);
    }
  }

  /** A call that has not passed the flag check when the flag is set is never inside a mutation later. */
  lemma LateCallsRefused(ws: seq<World>, i: nat, j: nat, t: TaskId, flag: FlagId)
    requires IsRun(ws) && i <= j < |ws| && FlagSet(ws[i], flag)
    requires t in ws[i].tasks ==> !InMutation(ws[i].tasks[t].pc)
    ensures t in ws[j].tasks && ws[j].tasks[t].session in ws[j].sessions && SessionOf(ws[j], t).flag == flag ==>
              !InMutation(ws[j].tasks[t].pc)
  {
    MutationsOnlyDrain(ws, i, j, flag);
    assert t !in MutationsUnder(ws[i], flag);
  }

  /** The flag of a process is set by the time its signal thread waits again after the first signal. */
  lemma SignalRaisesFlag(ws: seq<World>, i: nat, p: ProcessId)
    requires IsRun(ws) && i < |ws| && p in ws[i].processes
    ensures ws[i].processes[p].signalled != 0 && ws[i].processes[p].thread.Waiting? ==>
              ws[i].processes[p].tokenCancelled && FlagSet(ws[i], ws[i].processes[p].flag)
  {
    RunKeepsInv(ws, i);
    assert SignalOk(ws[i], ws[i].processes[p]);
  }

  lemma CodeStaysStep(w: World, a: Action, p: ProcessId)
    requires Enabled(w, a) && p in w.processes && w.processes[p].signalled != 0
    ensures p in Apply(w, a).processes && Apply(w, a).processes[p].signalled == w.processes[p].signalled
  {
  }

  /** The recorded code changes at most once: the first signal fixes it for good. */
  lemma {:induction false} CodeRecordedOnce(ws: seq<World>, i: nat, j: nat, p: ProcessId)
    requires IsRun(ws) && i <= j < |ws| && p in ws[i].processes && ws[i].processes[p].signalled != 0
    ensures p in ws[j].processes && ws[j].processes[p].signalled == ws[i].processes[p].signalled
    decreases j - i
  {
    if i < j {
      CodeRecordedOnce(ws, i, j - 1, p);
      RunStep(ws, j - 1);
      var a := NextAction(ws[j - 1], ws[j]);
      CodeStaysStep(ws[j - 1], a, p);
    }
  }

  /** The exit code reported for a process: none before any signal. */
  function SignalExitCode(process: Process): Option<nat> {
    if process.signalled == 0 then None else Some(process.signalled)
  }

  /** A hard exit reports the code of the first signal, not of the one that forced it. */
  lemma ExitReportsFirstSignal(ws: seq<World>, i: nat, j: nat, p: ProcessId)
    requires IsRun(ws) && i <= j < |ws| && p in ws[i].processes && p in ws[j].processes
    requires ws[j].processes[p].exitCode.Some?
    ensures SignalExitCode(ws[j].processes[p]) == ws[j].processes[p].exitCode
    ensures SignalExitCode(ws[i].processes[p]).Some? ==>
              SignalExitCode(ws[i].processes[p]) == ws[j].processes[p].exitCode
  {
    RunKeepsInv(ws, j);
    assert SignalOk(ws[j], ws[j].processes[p]);
    if ws[i].processes[p].signalled != 0 {
      CodeRecordedOnce(ws, i, j, p);
    }
  }
}
