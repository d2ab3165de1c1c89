/** The condition variable that compat/w32pthreads.h builds for systems without a native one:
    two mutexes, a counting semaphore, a manual-reset event, a waiter counter and a broadcast flag.

    Every statement that touches shared state is one step of one thread, so a run is an arbitrary
    interleaving of any number of threads. There are two history variables. Each release of the semaphore
    opens a round in `rounds`, and the threads that get through the semaphore are added to it; `inside` are
    the threads that are between locking the caller's mutex and unlocking it, as their own calls tell. */
module CondVar {
  import opened Common

  datatype Kind = Signal | Broadcast

  /** One release of the semaphore: who was registered at that moment, and who has been let through. */
  datatype Round = Round(kind: Kind, registered: set<nat>, woken: set<nat>)

  /** The statement a thread executes next. `round` is the number of the round that woke it. */
  datatype Pc =
    | Idle
    // pthread_cond_wait
    | WLockB | WLockC | WInc | WUnlockC | WUnlockB | WUnlockExt | WBlock
    | WRelockC(round: nat) | WDec(round: nat) | WTest(round: nat) | WReunlockC(round: nat, last: bool)
    | WSetEvent(round: nat) | WLockExt(round: nat)
    // pthread_cond_signal
    | SLockB | SLockC | SRead | SUnlockC(have: bool) | SRelease | SWait | SReset | SUnlockB
    // pthread_cond_broadcast
    | BLockB | BLockC | BTest | BRelease | BUnlockC | BWait | BReset | BClear | BUnlockCNone | BUnlockB

  /** The fields of the condition variable, the caller's mutex, and the history. */
  datatype Shared = Shared(
    mtxBroadcast: Option<nat>,
    mtxCount: Option<nat>,
    external: Option<nat>,
    waiterCount: int,
    semaphore: int,
    waitersDone: bool,
    isBroadcast: bool,
    rounds: seq<Round>)

  datatype State = State(pcs: seq<Pc>, sh: Shared, inside: set<nat>)

  /** What a thread outside the three functions does next. Only a thread inside its critical section may
      unlock the mutex or wait. */
  datatype Call = LockExternal | UnlockExternal | Wait | DoSignal | DoBroadcast

  /** Where a thread goes and what it leaves behind. */
  datatype Move = Blocked | To(pc: Pc, sh: Shared)

  predicate Init(s: State) {
    && (forall t :: 0 <= t < |s.pcs| ==> s.pcs[t] == Idle)
    && s.sh == Shared(None, None, None, 0, 0, false, false, [])
    && s.inside == {}
  }

  function Wake(rounds: seq<Round>, t: nat): seq<Round> {
    if rounds == [] then rounds
    else
      var last := rounds[|rounds| - 1];
      rounds[|rounds| - 1 := last.(woken := last.woken + {t})]
  }

  function MoveIdle(sh: Shared, t: nat, call: Call, inside: bool): Move {
    match call
    case LockExternal => if sh.external == None then To(Idle, sh.(external := Some(t))) else Blocked
    case UnlockExternal => if inside then To(Idle, sh.(external := None)) else Blocked
    case Wait => if inside then To(WLockB, sh) else Blocked
    case DoSignal => To(SLockB, sh)
    case DoBroadcast => To(BLockB, sh)
  }

  function MoveWait(pc: Pc, sh: Shared, t: nat): Move {
    match pc
    case WLockB => if sh.mtxBroadcast == None then To(WLockC, sh.(mtxBroadcast := Some(t))) else Blocked
    case WLockC => if sh.mtxCount == None then To(WInc, sh.(mtxCount := Some(t))) else Blocked
    case WInc => To(WUnlockC, sh.(waiterCount := sh.waiterCount + 1))
    case WUnlockC => To(WUnlockB, sh.(mtxCount := None))
    case WUnlockB => To(WUnlockExt, sh.(mtxBroadcast := None))
    case WUnlockExt => To(WBlock, sh.(external := None))
    case WBlock =>
      if sh.semaphore > 0 then
        To(WRelockC(|sh.rounds|), sh.(semaphore := sh.semaphore - 1, rounds := Wake(sh.rounds, t)))
      else Blocked
    case WRelockC(r) => if sh.mtxCount == None then To(WDec(r), sh.(mtxCount := Some(t))) else Blocked
    case WDec(r) => To(WTest(r), sh.(waiterCount := sh.waiterCount - 1))
    case WTest(r) => To(WReunlockC(r, sh.waiterCount == 0 || !sh.isBroadcast), sh)
    case WReunlockC(r, last) => To(if last then WSetEvent(r) else WLockExt(r), sh.(mtxCount := None))
    case WSetEvent(r) => To(WLockExt(r), sh.(waitersDone := true))
    case WLockExt(_) => if sh.external == None then To(Idle, sh.(external := Some(t))) else Blocked
    case _ => Blocked
  }

  /** `registered` is only recorded in the history. */
  function MoveSignal(pc: Pc, sh: Shared, t: nat, registered: set<nat>): Move {
    match pc
    case SLockB => if sh.mtxBroadcast == None then To(SLockC, sh.(mtxBroadcast := Some(t))) else Blocked
    case SLockC => if sh.mtxCount == None then To(SRead, sh.(mtxCount := Some(t))) else Blocked
    case SRead => To(SUnlockC(sh.waiterCount != 0), sh)
    case SUnlockC(have) => To(if have then SRelease else SUnlockB, sh.(mtxCount := None))
    case SRelease =>
      To(SWait, sh.(semaphore := sh.semaphore + 1, rounds := sh.rounds + [Round(Signal, registered, {})]))
    case SWait => if sh.waitersDone then To(SReset, sh) else Blocked
    case SReset => To(SUnlockB, sh.(waitersDone := false))
    case SUnlockB => To(Idle, sh.(mtxBroadcast := None))
    case _ => Blocked
  }

  function MoveBroadcast(pc: Pc, sh: Shared, t: nat, registered: set<nat>): Move {
    match pc
    case BLockB => if sh.mtxBroadcast == None then To(BLockC, sh.(mtxBroadcast := Some(t))) else Blocked
    case BLockC => if sh.mtxCount == None then To(BTest, sh.(mtxCount := Some(t))) else Blocked
    case BTest => if sh.waiterCount != 0 then To(BRelease, sh.(isBroadcast := true)) else To(BUnlockCNone, sh)
    case BRelease =>
      To(BUnlockC, sh.(semaphore := sh.semaphore + sh.waiterCount,
                       rounds := sh.rounds + [Round(Broadcast, registered, {})]))
    case BUnlockC => To(BWait, sh.(mtxCount := None))
    case BWait => if sh.waitersDone then To(BReset, sh) else Blocked
    case BReset => To(BClear, sh.(waitersDone := false))
    case BClear => To(BUnlockB, sh.(isBroadcast := false))
    case BUnlockCNone => To(BUnlockB, sh.(mtxCount := None))
    case BUnlockB => To(Idle, sh.(mtxBroadcast := None))
    case _ => Blocked
  }

  function MoveOf(s: State, t: nat, call: Call): Move
    requires t < |s.pcs|
  {
    var pc := s.pcs[t];
    if pc.Idle? then MoveIdle(s.sh, t, call, t in s.inside)
    else if InSignal(pc) then MoveSignal(pc, s.sh, t, Registered(s))
    else if InWait(pc) then MoveWait(pc, s.sh, t)
    else MoveBroadcast(pc, s.sh, t, Registered(s))
  }

  /** Who is inside after a step of thread `t` to `pc`: locking the mutex and returning from a wait lead in,
      unlocking it and calling wait lead out. */
  function InsideAfter(s: State, t: nat, call: Call, pc: Pc): set<nat>
    requires t < |s.pcs|
  {
    if s.pcs[t].Idle? then
      match call
      case LockExternal => s.inside + {t}
      case UnlockExternal => s.inside - {t}
      case Wait => s.inside - {t}
      case _ => s.inside
    else if InWait(s.pcs[t]) && pc.Idle? then s.inside + {t}
    else s.inside
  }

  /** Thread `t` takes its next step from `s` to `s'`. */
  predicate Step(s: State, t: nat, call: Call, s': State) {
    t < |s.pcs| && match MoveOf(s, t, call)
                   case Blocked => false
                   case To(pc, sh) => s' == State(s.pcs[t := pc], sh, InsideAfter(s, t, call, pc))
  }

  predicate InWait(pc: Pc) {
    || pc.WLockB? || pc.WLockC? || pc.WInc? || pc.WUnlockC? || pc.WUnlockB? || pc.WUnlockExt? || pc.WBlock?
    || Working(pc) || pc.WLockExt?
  }

  predicate InSignal(pc: Pc) {
    || pc.SLockB? || pc.SLockC? || pc.SRead? || pc.SUnlockC? || pc.SRelease? || pc.SWait? || pc.SReset? || pc.SUnlockB?
  }

  ghost predicate Next(s: State, s': State) {
    exists t: nat, call :: Step(s, t, call, s')
  }

  ghost predicate Goes(run: seq<State>, i: nat)
    requires 0 < i < |run|
  {
    Next(run[i - 1], run[i])
  }

  /** A run: any interleaving of steps from an initial state. */
  ghost predicate IsRun(run: seq<State>) {
    && run != []
    && Init(run[0])
    && forall i :: 0 < i < |run| ==> Goes(run, i)
  }

  // ---- sets of threads ------------------------------------------------------------------------

  /** The thread has counted itself in and has not got through the semaphore. */
  predicate IsRegistered(pc: Pc) { pc.WUnlockC? || pc.WUnlockB? || pc.WUnlockExt? || pc.WBlock? }

  /** The thread is through the semaphore and still owes the round its check-out. */
  predicate Working(pc: Pc) { pc.WRelockC? || pc.WDec? || pc.WTest? || pc.WReunlockC? || pc.WSetEvent? }

  /** The thread is included in waiter_count. */
  predicate IsCounted(pc: Pc) { IsRegistered(pc) || pc.WRelockC? || pc.WDec? }

  predicate Awake(pc: Pc) { Working(pc) || pc.WLockExt? }

  predicate OwnsBroadcast(pc: Pc) {
    || pc.WLockC? || pc.WInc? || pc.WUnlockC? || pc.WUnlockB?
    || (InSignal(pc) && !pc.SLockB?)
    || pc.BLockC? || pc.BTest? || pc.BRelease? || pc.BUnlockC? || pc.BWait? || pc.BReset? || pc.BClear?
    || pc.BUnlockCNone? || pc.BUnlockB?
  }

  predicate OwnsCount(pc: Pc) {
    || pc.WInc? || pc.WUnlockC? || pc.WDec? || pc.WTest? || pc.WReunlockC?
    || pc.SRead? || pc.SUnlockC?
    || pc.BTest? || pc.BRelease? || pc.BUnlockC? || pc.BUnlockCNone?
  }

  predicate OwnsExternal(pc: Pc) {
    pc.WLockB? || pc.WLockC? || pc.WInc? || pc.WUnlockC? || pc.WUnlockB? || pc.WUnlockExt?
  }

  /** The thread is inside its critical section, or in a wait that has not given the mutex up yet. */
  predicate Holds(s: State, t: nat)
    requires t < |s.pcs|
  {
    t in s.inside || OwnsExternal(s.pcs[t])
  }

  function Registered(s: State): set<nat> { set t: nat | t < |s.pcs| && IsRegistered(s.pcs[t]) }
  function Counted(s: State): set<nat> { set t: nat | t < |s.pcs| && IsCounted(s.pcs[t]) }
  function Workers(s: State): set<nat> { set t: nat | t < |s.pcs| && Working(s.pcs[t]) }

  // ---- the invariant --------------------------------------------------------------------------

  ghost predicate MutexInv(s: State) {
    && (s.sh.mtxBroadcast.Some? ==> s.sh.mtxBroadcast.value < |s.pcs|)
    && (s.sh.mtxCount.Some? ==> s.sh.mtxCount.value < |s.pcs|)
    && (s.sh.external.Some? ==> s.sh.external.value < |s.pcs|)
    && (forall t: nat :: t < |s.pcs| ==> (OwnsBroadcast(s.pcs[t]) <==> s.sh.mtxBroadcast == Some(t)))
    && (forall t: nat :: t < |s.pcs| ==> (OwnsCount(s.pcs[t]) <==> s.sh.mtxCount == Some(t)))
    && (forall t: nat :: t < |s.pcs| ==> (Holds(s, t) <==> s.sh.external == Some(t)))
    && (forall t: nat :: t in s.inside ==> t < |s.pcs| && !InWait(s.pcs[t]))
  }

  predicate RoundOk(r: Round) {
    match r.kind
    case Signal => |r.woken| == 1 && r.woken <= r.registered
    case Broadcast => r.woken == r.registered && r.registered != {}
  }

  /** The number of rounds that are over. */
  function Finished(s: State): int {
    match HolderPc(s)
    case SWait => |s.sh.rounds| - 1
    case BUnlockC => |s.sh.rounds| - 1
    case BWait => |s.sh.rounds| - 1
    case _ => |s.sh.rounds|
  }

  /** The program counter of the owner of mtx_broadcast; Idle when it is free. */
  function HolderPc(s: State): Pc {
    if s.sh.mtxBroadcast.Some? && s.sh.mtxBroadcast.value < |s.pcs| then s.pcs[s.sh.mtxBroadcast.value] else Idle
  }

  ghost predicate HistoryInv(s: State) {
    && (forall i :: 0 <= i < |s.sh.rounds| && i < Finished(s) ==> RoundOk(s.sh.rounds[i]))
    && (forall t: nat :: t < |s.pcs| && Awake(s.pcs[t]) ==>
        var r := s.pcs[t].round; 1 <= r <= |s.sh.rounds| && t in s.sh.rounds[r - 1].woken)
    && (forall t: nat :: t < |s.pcs| && Working(s.pcs[t]) ==> s.pcs[t].round == |s.sh.rounds|)
  }

  predicate Quiet(s: State) {
    s.sh.semaphore == 0 && !s.sh.waitersDone && !s.sh.isBroadcast && Workers(s) == {}
  }

  function Current(s: State): Round
    requires s.sh.rounds != []
  {
    s.sh.rounds[|s.sh.rounds| - 1]
  }

  /** Everybody registered when the round opened is either still registered or has been woken. */
  predicate Accounted(s: State)
    requires s.sh.rounds != []
  {
    && Current(s).registered == Registered(s) + Current(s).woken
    && Registered(s) !! Current(s).woken
    && Workers(s) <= Current(s).woken
  }

  ghost predicate SignalRound(s: State) {
    && s.sh.rounds != [] && Current(s).kind == Signal && Accounted(s)
    && !s.sh.isBroadcast && Current(s).registered != {}
    && s.sh.semaphore == 1 - |Current(s).woken|
    && (s.sh.semaphore == 1 ==> !s.sh.waitersDone && Workers(s) == {} && Current(s).woken == {})
    && (s.sh.semaphore != 1 ==>
          && s.sh.semaphore == 0
          && (if s.sh.waitersDone then Workers(s) == {} else Workers(s) == Current(s).woken))
    && (forall t: nat :: t < |s.pcs| && s.pcs[t].WReunlockC? ==> s.pcs[t].last)
  }

  ghost predicate BroadcastRound(s: State) {
    && s.sh.rounds != [] && Current(s).kind == Broadcast && Accounted(s)
    && s.sh.isBroadcast && Current(s).registered != {}
    && s.sh.semaphore == |Registered(s)|
    && (forall t: nat :: t < |s.pcs| && s.pcs[t].WReunlockC? ==> s.pcs[t].last == (s.sh.waiterCount == 0))
    && (s.sh.waitersDone ==> s.sh.waiterCount == 0 && Workers(s) == {})
    && (!s.sh.waitersDone && s.sh.waiterCount == 0 ==> exists w: nat :: w < |s.pcs| && Workers(s) == {w})
    && (s.sh.waiterCount != 0 ==> forall t: nat :: t < |s.pcs| ==> !s.pcs[t].WSetEvent?)
  }

  /** What the owner of mtx_broadcast may rely on, by where it is. */
  ghost predicate PhaseInv(s: State) {
    match HolderPc(s)
    case SUnlockC(have) => Quiet(s) && (have <==> Registered(s) != {})
    case SRelease => Quiet(s) && Registered(s) != {}
    case SWait => SignalRound(s)
    case SReset => s.sh.semaphore == 0 && s.sh.waitersDone && !s.sh.isBroadcast && Workers(s) == {}
    case BRelease => s.sh.semaphore == 0 && !s.sh.waitersDone && s.sh.isBroadcast
      && Workers(s) == {} && Registered(s) != {}
    case BUnlockC => BroadcastRound(s) && s.sh.waiterCount != 0
    case BWait => BroadcastRound(s)
    case BReset => s.sh.semaphore == 0 && s.sh.waitersDone && s.sh.isBroadcast && Workers(s) == {}
    case BClear => s.sh.semaphore == 0 && !s.sh.waitersDone && s.sh.isBroadcast && Workers(s) == {}
    case _ => Quiet(s)
  }

  ghost predicate Inv(s: State) {
    && MutexInv(s)
    && s.sh.waiterCount == |Counted(s)|
    && HistoryInv(s)
    && PhaseInv(s)
  }

  // ---- preservation ---------------------------------------------------------------------------

  /** How the three sets move when one thread changes its program counter. */
  lemma SetsMove(s: State, s': State, t: nat)
    requires t < |s.pcs| == |s'.pcs| && s'.pcs == s.pcs[t := s'.pcs[t]]
    ensures Registered(s') == if IsRegistered(s'.pcs[t]) then Registered(s) + {t} else Registered(s) - {t}
    ensures Counted(s') == if IsCounted(s'.pcs[t]) then Counted(s) + {t} else Counted(s) - {t}
    ensures Workers(s') == if Working(s'.pcs[t]) then Workers(s) + {t} else Workers(s) - {t}
    ensures t in Registered(s) <==> IsRegistered(s.pcs[t])
    ensures t in Counted(s) <==> IsCounted(s.pcs[t])
    ensures t in Workers(s) <==> Working(s.pcs[t])
  {
  }

  /** A mutex is taken, handed back, or left alone, in step with the owning program points. */
  predicate Transfer(owned: bool, owns: bool, m: Option<nat>, m': Option<nat>, t: nat) {
    || (m == None && m' == Some(t) && owns)
    || (owned && m' == None && !owns)
    || (m' == m && owns == owned)
  }

  predicate MutexTransfers(pc: Pc, sh: Shared, t: nat, pc': Pc, sh': Shared) {
    && Transfer(OwnsBroadcast(pc), OwnsBroadcast(pc'), sh.mtxBroadcast, sh'.mtxBroadcast, t)
    && Transfer(OwnsCount(pc), OwnsCount(pc'), sh.mtxCount, sh'.mtxCount, t)
  }

  predicate OtherTransfers(pc: Pc, sh: Shared, t: nat, pc': Pc, sh': Shared) {
    && sh'.waiterCount - sh.waiterCount == (if IsCounted(pc') then 1 else 0) - (if IsCounted(pc) then 1 else 0)
  }

  /** What every step does to the mutexes and the counter, seen from the moving thread alone. */
  predicate Transfers(pc: Pc, sh: Shared, t: nat, pc': Pc, sh': Shared) {
    MutexTransfers(pc, sh, t, pc', sh') && OtherTransfers(pc, sh, t, pc', sh')
  }

  lemma WaitTransfers(pc: Pc, sh: Shared, t: nat)
    ensures var m := MoveWait(pc, sh, t); m.To? ==> Transfers(pc, sh, t, m.pc, m.sh)
  {
    var m := MoveWait(pc, sh, t);
    if m.To? {
      assert MutexTransfers(pc, sh, t, m.pc, m.sh) by { WaitMutexes(pc, sh, t); }
      assert OtherTransfers(pc, sh, t, m.pc, m.sh);
    }
  }

  lemma WaitMutexes(pc: Pc, sh: Shared, t: nat)
    ensures var m := MoveWait(pc, sh, t); m.To? ==> MutexTransfers(pc, sh, t, m.pc, m.sh)
  {
  }

  lemma SignalMutexes(pc: Pc, sh: Shared, t: nat, registered: set<nat>)
    ensures var m := MoveSignal(pc, sh, t, registered); m.To? ==> MutexTransfers(pc, sh, t, m.pc, m.sh)
  {
  }

  lemma SignalOthers(pc: Pc, sh: Shared, t: nat, registered: set<nat>)
    ensures var m := MoveSignal(pc, sh, t, registered); m.To? ==> OtherTransfers(pc, sh, t, m.pc, m.sh)
  {
  }

  lemma BroadcastMutexes(pc: Pc, sh: Shared, t: nat, registered: set<nat>)
    ensures var m := MoveBroadcast(pc, sh, t, registered); m.To? ==> MutexTransfers(pc, sh, t, m.pc, m.sh)
  {
  }

  lemma BroadcastOthers(pc: Pc, sh: Shared, t: nat, registered: set<nat>)
    ensures var m := MoveBroadcast(pc, sh, t, registered); m.To? ==> OtherTransfers(pc, sh, t, m.pc, m.sh)
  {
  }

  lemma StepTransfers(s: State, t: nat, call: Call, s': State)
    requires MutexInv(s) && Step(s, t, call, s')
    ensures |s'.pcs| == |s.pcs| && s'.pcs == s.pcs[t := s'.pcs[t]]
    ensures Transfers(s.pcs[t], s.sh, t, s'.pcs[t], s'.sh)
  {
    var pc := s.pcs[t];
    if InSignal(pc) {
      SignalMutexes(pc, s.sh, t, Registered(s));
      SignalOthers(pc, s.sh, t, Registered(s));
    } else if InWait(pc) {
      WaitTransfers(pc, s.sh, t);
    } else if !pc.Idle? {
      BroadcastMutexes(pc, s.sh, t, Registered(s));
      BroadcastOthers(pc, s.sh, t, Registered(s));
    }
  }

  lemma SignalLeavesExternal(pc: Pc, sh: Shared, t: nat, registered: set<nat>)
    ensures var m := MoveSignal(pc, sh, t, registered); m.To? ==> m.sh.external == sh.external && !InWait(m.pc)
  {
  }

  lemma BroadcastLeavesExternal(pc: Pc, sh: Shared, t: nat, registered: set<nat>)
    ensures var m := MoveBroadcast(pc, sh, t, registered); m.To? ==> m.sh.external == sh.external && !InWait(m.pc)
  {
  }

  lemma WaitMovesExternal(pc: Pc, sh: Shared, t: nat)
    ensures var m := MoveWait(pc, sh, t);
      m.To? ==>
        && Transfer(OwnsExternal(pc), OwnsExternal(m.pc) || m.pc.Idle?, sh.external, m.sh.external, t)
        && (InWait(m.pc) || m.pc.Idle?)
  {
  }

  /** The caller's mutex changes hands in step with who holds it by the history. */
  lemma ExternalTransfers(s: State, t: nat, call: Call, s': State)
    requires MutexInv(s) && Step(s, t, call, s')
    ensures s'.pcs == s.pcs[t := s'.pcs[t]] && s'.inside - {t} == s.inside - {t}
    ensures Transfer(Holds(s, t), Holds(s', t), s.sh.external, s'.sh.external, t)
    ensures t in s'.inside ==> !InWait(s'.pcs[t])
  {
    var pc := s.pcs[t];
    if InSignal(pc) {
      SignalLeavesExternal(pc, s.sh, t, Registered(s));
    } else if InWait(pc) {
      WaitMovesExternal(pc, s.sh, t);
    } else if !pc.Idle? {
      BroadcastLeavesExternal(pc, s.sh, t, Registered(s));
    }
  }

  lemma MutexPreserved(s: State, t: nat, call: Call, s': State)
    requires MutexInv(s) && Step(s, t, call, s')
    ensures MutexInv(s')
  {
    StepTransfers(s, t, call, s');
    ExternalTransfers(s, t, call, s');
    forall u: nat | u < |s'.pcs| ensures Holds(s', u) <==> s'.sh.external == Some(u) {
      if u != t { assert u in s'.inside <==> u in s'.inside - {t}; assert u in s.inside <==> u in s.inside - {t}; }
    }
    forall u: nat | u in s'.inside ensures u < |s'.pcs| && !InWait(s'.pcs[u]) {
      if u != t { assert u in s.inside - {t}; }
    }
  }

  lemma CountPreserved(s: State, t: nat, call: Call, s': State)
    requires MutexInv(s) && s.sh.waiterCount == |Counted(s)| && Step(s, t, call, s')
    ensures s'.sh.waiterCount == |Counted(s')|
  {
    StepTransfers(s, t, call, s');
    SetsMove(s, s', t);
  }

  // ---- the rounds -----------------------------------------------------------------------------

  /** Program points at which the owner of mtx_broadcast (or nobody) expects the protocol to be at rest. */
  predicate Plain(pc: Pc) {
    !(pc.SUnlockC? || pc.SRelease? || pc.SWait? || pc.SReset?
      || pc.BRelease? || pc.BUnlockC? || pc.BWait? || pc.BReset? || pc.BClear?)
  }

  /** The step leaves the round machinery alone. */
  predicate Silent(sh: Shared, pc': Pc, sh': Shared) {
    && sh'.semaphore == sh.semaphore && sh'.waitersDone == sh.waitersDone
    && sh'.isBroadcast == sh.isBroadcast && sh'.rounds == sh.rounds
    && !Awake(pc')
  }

  lemma SilentWait(pc: Pc, sh: Shared, t: nat)
    requires !Working(pc) && (pc.WBlock? ==> sh.semaphore == 0)
    ensures var m := MoveWait(pc, sh, t); m.To? ==> Silent(sh, m.pc, m.sh)
  {
  }

  lemma SilentSignal(pc: Pc, sh: Shared, t: nat, registered: set<nat>)
    requires Plain(pc)
    ensures var m := MoveSignal(pc, sh, t, registered); m.To? ==> Silent(sh, m.pc, m.sh)
  {
  }

  lemma SilentBroadcast(pc: Pc, sh: Shared, t: nat, registered: set<nat>)
    requires Plain(pc)
    ensures var m := MoveBroadcast(pc, sh, t, registered); m.To? && Plain(m.pc) ==> Silent(sh, m.pc, m.sh)
  {
  }

  lemma HistoryKept(s: State, t: nat, s': State)
    requires t < |s.pcs| == |s'.pcs| && s'.pcs == s.pcs[t := s'.pcs[t]]
    requires HistoryInv(s) && s'.sh.rounds == s.sh.rounds && Finished(s') <= Finished(s)
    requires Awake(s'.pcs[t]) ==> Awake(s.pcs[t]) && s'.pcs[t].round == s.pcs[t].round
    requires Working(s'.pcs[t]) ==> Working(s.pcs[t])
    ensures HistoryInv(s')
  {
  }

  lemma HolderMoves(s: State, t: nat, call: Call, s': State)
    requires MutexInv(s) && Step(s, t, call, s')
    ensures |s'.pcs| == |s.pcs| && s'.pcs == s.pcs[t := s'.pcs[t]]
    ensures HolderPc(s') == if OwnsBroadcast(s'.pcs[t]) then s'.pcs[t]
                            else if OwnsBroadcast(s.pcs[t]) then Idle
                            else HolderPc(s)
    ensures OwnsBroadcast(s.pcs[t]) ==> HolderPc(s) == s.pcs[t]
    ensures OwnsBroadcast(s'.pcs[t]) && !OwnsBroadcast(s.pcs[t]) ==> HolderPc(s) == Idle
  {
    StepTransfers(s, t, call, s');
    MutexPreserved(s, t, call, s');
  }

  lemma StepSilent(s: State, t: nat, call: Call, s': State)
    requires Step(s, t, call, s') && Plain(s.pcs[t]) && Plain(s'.pcs[t])
    requires !Working(s.pcs[t]) && (s.pcs[t].WBlock? ==> s.sh.semaphore == 0)
    ensures Silent(s.sh, s'.pcs[t], s'.sh)
  {
    var pc := s.pcs[t];
    if InSignal(pc) {
      SilentSignal(pc, s.sh, t, Registered(s));
    } else if InWait(pc) {
      SilentWait(pc, s.sh, t);
    } else if !pc.Idle? {
      SilentBroadcast(pc, s.sh, t, Registered(s));
    }
  }

  lemma QuietStep(s: State, t: nat, call: Call, s': State)
    requires Inv(s) && Step(s, t, call, s')
    requires Plain(HolderPc(s)) && Plain(HolderPc(s'))
    ensures HistoryInv(s') && PhaseInv(s')
  {
    HolderMoves(s, t, call, s');
    SetsMove(s, s', t);
    StepSilent(s, t, call, s');
    HistoryKept(s, t, s');
  }

  /** Without workers, the counter counts exactly the registered threads. */
  lemma CountedIsRegistered(s: State)
    requires s.sh.waiterCount == |Counted(s)| && Workers(s) == {}
    ensures s.sh.waiterCount == |Registered(s)|
    ensures s.sh.waiterCount == 0 <==> Registered(s) == {}
  {
    assert Counted(s) == Registered(s) by {
      forall t: nat | t < |s.pcs| ensures IsCounted(s.pcs[t]) <==> IsRegistered(s.pcs[t]) {
        assert t in Workers(s) <==> Working(s.pcs[t]);
      }
    }
  }

  lemma BystanderSets(s: State, t: nat, call: Call, s': State)
    requires MutexInv(s) && Step(s, t, call, s')
    requires !Plain(HolderPc(s)) && !OwnsBroadcast(s.pcs[t])
    requires !Working(s.pcs[t]) && !Working(s'.pcs[t])
    ensures HolderPc(s') == HolderPc(s) && s'.sh.waiterCount == s.sh.waiterCount
    ensures Registered(s') == Registered(s) && Workers(s') == Workers(s)
  {
    HolderMoves(s, t, call, s');
    StepTransfers(s, t, call, s');
    SetsMove(s, s', t);
  }

  /** The round's bookkeeping only looks at these things. */
  predicate SameRound(s: State, s': State) {
    && s'.sh.semaphore == s.sh.semaphore && s'.sh.waitersDone == s.sh.waitersDone
    && s'.sh.isBroadcast == s.sh.isBroadcast && s'.sh.rounds == s.sh.rounds
    && s'.sh.waiterCount == s.sh.waiterCount
    && Registered(s') == Registered(s) && Workers(s') == Workers(s)
  }

  lemma RoundKept(s: State, t: nat, s': State)
    requires t < |s.pcs| == |s'.pcs| && s'.pcs == s.pcs[t := s'.pcs[t]] && !Working(s'.pcs[t])
    requires SameRound(s, s')
    ensures SignalRound(s) ==> SignalRound(s')
    ensures BroadcastRound(s) ==> BroadcastRound(s')
  {
  }

  /** A thread moves that is not part of the round under way. */
  predicate Bystands(s: State, t: nat, s': State) {
    && t < |s.pcs| == |s'.pcs| && s'.pcs == s.pcs[t := s'.pcs[t]]
    && HolderPc(s') == HolderPc(s) && !Working(s'.pcs[t]) && !Awake(s'.pcs[t]) && SameRound(s, s')
  }

  lemma BystanderMoves(s: State, t: nat, call: Call, s': State)
    requires MutexInv(s) && Step(s, t, call, s')
    requires !Plain(HolderPc(s)) && !OwnsBroadcast(s.pcs[t])
    requires !Working(s.pcs[t]) && (s.pcs[t].WBlock? ==> s.sh.semaphore == 0)
    ensures Bystands(s, t, s')
  {
    HolderMoves(s, t, call, s');
    assert Plain(s.pcs[t]) && Plain(s'.pcs[t]);
    StepSilent(s, t, call, s');
    BystanderSets(s, t, call, s');
  }

  lemma BystanderKeeps(s: State, t: nat, s': State)
    requires Bystands(s, t, s') && HistoryInv(s) && PhaseInv(s) && !Plain(HolderPc(s))
    ensures HistoryInv(s') && PhaseInv(s')
  {
    HistoryKept(s, t, s');
    RoundKept(s, t, s');
  }

  /** A step of a thread that is not part of the round under way. */
  lemma BystanderStep(s: State, t: nat, call: Call, s': State)
    requires Inv(s) && Step(s, t, call, s')
    requires !Plain(HolderPc(s)) && !OwnsBroadcast(s.pcs[t])
    requires !Working(s.pcs[t]) && (s.pcs[t].WBlock? ==> s.sh.semaphore == 0)
    ensures HistoryInv(s') && PhaseInv(s')
  {
    BystanderMoves(s, t, call, s');
    BystanderKeeps(s, t, s');
  }

  // Steps of the owner of mtx_broadcast at the points where it steers a round.

  lemma SignalReads(s: State, t: nat, call: Call, s': State)
    requires Inv(s) && Step(s, t, call, s') && (s.pcs[t].SRead? || (s.pcs[t].SUnlockC? && s.pcs[t].have))
    ensures HistoryInv(s') && PhaseInv(s')
  {
    HolderMoves(s, t, call, s');
    SetsMove(s, s', t);
    CountedIsRegistered(s);
    HistoryKept(s, t, s');
  }

  lemma NobodyToSignal(s: State, t: nat, call: Call, s': State)
    requires Inv(s) && Step(s, t, call, s') && s.pcs[t] == SUnlockC(false)
    ensures HistoryInv(s') && PhaseInv(s')
  {
    HolderMoves(s, t, call, s');
    SetsMove(s, s', t);
    HistoryKept(s, t, s');
  }

  lemma BroadcastTests(s: State, t: nat, call: Call, s': State)
    requires Inv(s) && Step(s, t, call, s') && s.pcs[t].BTest? && s.sh.waiterCount != 0
    ensures HistoryInv(s') && PhaseInv(s')
  {
    HolderMoves(s, t, call, s');
    SetsMove(s, s', t);
    CountedIsRegistered(s);
    HistoryKept(s, t, s');
  }

  lemma HistoryGrows(s: State, t: nat, s': State)
    requires t < |s.pcs| == |s'.pcs| && s'.pcs == s.pcs[t := s'.pcs[t]]
    requires HistoryInv(s) && |s'.sh.rounds| == |s.sh.rounds| + 1 && s'.sh.rounds[..|s.sh.rounds|] == s.sh.rounds
    requires Finished(s') == Finished(s) == |s.sh.rounds| && Workers(s) == {} && !Awake(s'.pcs[t])
    ensures HistoryInv(s')
  {
    assert forall i :: 0 <= i < |s.sh.rounds| ==> s'.sh.rounds[i] == s.sh.rounds[..|s.sh.rounds|][i];
    assert forall u: nat :: u < |s.pcs| ==> (u in Workers(s) <==> Working(s.pcs[u]));
  }

  lemma SignalReleases(s: State, t: nat, call: Call, s': State)
    requires Inv(s) && Step(s, t, call, s') && s.pcs[t].SRelease?
    ensures HistoryInv(s') && PhaseInv(s')
  {
    HolderMoves(s, t, call, s');
    SetsMove(s, s', t);
    HistoryGrows(s, t, s');
    assert forall u: nat :: u < |s'.pcs| ==> (u in Workers(s') <==> Working(s'.pcs[u]));
  }

  function Released(sh: Shared, registered: set<nat>): Shared {
    sh.(semaphore := sh.semaphore + sh.waiterCount, rounds := sh.rounds + [Round(Broadcast, registered, {})])
  }

  lemma ReleaseStep(s: State, t: nat, call: Call, s': State)
    requires Step(s, t, call, s') && s.pcs[t].BRelease?
    ensures s' == s.(pcs := s.pcs[t := BUnlockC], sh := Released(s.sh, Registered(s)))
  {
  }

  lemma BroadcastReleases(s: State, t: nat, call: Call, s': State)
    requires Inv(s) && Step(s, t, call, s') && s.pcs[t].BRelease?
    ensures HistoryInv(s') && PhaseInv(s')
  {
    HolderMoves(s, t, call, s');
    ReleaseStep(s, t, call, s');
    BroadcastReleased(s, t, s');
  }

  lemma BroadcastReleased(s: State, t: nat, s': State)
    requires HistoryInv(s) && PhaseInv(s) && s.sh.waiterCount == |Counted(s)| && HolderPc(s) == BRelease
    requires t < |s.pcs| && s.pcs[t].BRelease? && HolderPc(s') == BUnlockC
    requires s' == s.(pcs := s.pcs[t := BUnlockC], sh := Released(s.sh, Registered(s)))
    ensures HistoryInv(s') && PhaseInv(s')
  {
    SetsMove(s, s', t);
    CountedIsRegistered(s);
    HistoryGrows(s, t, s');
    assert forall u: nat :: u < |s'.pcs| ==> (u in Workers(s') <==> Working(s'.pcs[u]));
  }

  lemma UnlockStep(s: State, t: nat, call: Call, s': State)
    requires Step(s, t, call, s') && s.pcs[t].BUnlockC?
    ensures s' == s.(pcs := s.pcs[t := BWait], sh := s.sh.(mtxCount := None))
  {
  }

  lemma BroadcastUnlocks(s: State, t: nat, call: Call, s': State)
    requires Inv(s) && Step(s, t, call, s') && s.pcs[t].BUnlockC?
    ensures HistoryInv(s') && PhaseInv(s')
  {
    HolderMoves(s, t, call, s');
    UnlockStep(s, t, call, s');
    BroadcastUnlocked(s, t, s');
  }

  lemma BroadcastUnlocked(s: State, t: nat, s': State)
    requires HistoryInv(s) && PhaseInv(s) && HolderPc(s) == BUnlockC && HolderPc(s') == BWait
    requires t < |s.pcs| && s.pcs[t].BUnlockC?
    requires s' == s.(pcs := s.pcs[t := BWait], sh := s.sh.(mtxCount := None))
    ensures HistoryInv(s') && PhaseInv(s')
  {
    BroadcastHolderKept(s, t, s');
    HistoryKept(s, t, s');
  }

  lemma BroadcastHolderKept(s: State, t: nat, s': State)
    requires t < |s.pcs| && s.pcs[t].BUnlockC?
    requires s' == s.(pcs := s.pcs[t := BWait], sh := s.sh.(mtxCount := None))
    requires BroadcastRound(s)
    ensures BroadcastRound(s')
  {
    SetsMove(s, s', t);
    RoundKept(s, t, s');
  }

  lemma SignalRoundDone(s: State)
    requires SignalRound(s) && s.sh.waitersDone
    ensures RoundOk(Current(s)) && s.sh.semaphore == 0 && Workers(s) == {}
  {
  }

  lemma BroadcastRoundDone(s: State)
    requires BroadcastRound(s) && s.sh.waitersDone && s.sh.waiterCount == |Counted(s)|
    ensures RoundOk(Current(s)) && s.sh.semaphore == 0 && Workers(s) == {}
  {
    CountedIsRegistered(s);
  }

  lemma HistoryCloses(s: State, t: nat, s': State)
    requires t < |s.pcs| == |s'.pcs| && s'.pcs == s.pcs[t := s'.pcs[t]] && !Awake(s'.pcs[t])
    requires s.sh.rounds != [] && RoundOk(Current(s)) && s'.sh.rounds == s.sh.rounds
    requires HistoryInv(s) && Finished(s) == |s.sh.rounds| - 1
    ensures HistoryInv(s')
  {
  }

  /** waiters_done is only seen once every thread the round released has checked out. */
  lemma SignalCloses(s: State, t: nat, call: Call, s': State)
    requires Inv(s) && Step(s, t, call, s') && s.pcs[t].SWait?
    ensures RoundOk(Current(s))
    ensures HistoryInv(s') && PhaseInv(s')
  {
    HolderMoves(s, t, call, s');
    SignalRoundDone(s);
    SetsMove(s, s', t);
    HistoryCloses(s, t, s');
  }

  lemma BroadcastCloses(s: State, t: nat, call: Call, s': State)
    requires Inv(s) && Step(s, t, call, s') && s.pcs[t].BWait?
    ensures RoundOk(Current(s))
    ensures HistoryInv(s') && PhaseInv(s')
  {
    HolderMoves(s, t, call, s');
    BroadcastRoundDone(s);
    SetsMove(s, s', t);
    HistoryCloses(s, t, s');
  }

  lemma HolderTidies(s: State, t: nat, call: Call, s': State)
    requires Inv(s) && Step(s, t, call, s') && (s.pcs[t].SReset? || s.pcs[t].BReset? || s.pcs[t].BClear?)
    ensures HistoryInv(s') && PhaseInv(s')
  {
    HolderMoves(s, t, call, s');
    SetsMove(s, s', t);
    HistoryKept(s, t, s');
  }

  // Steps of the threads of the round.

  lemma WorkersHaveARound(s: State, t: nat)
    requires Inv(s) && t < |s.pcs| && (Working(s.pcs[t]) || s.sh.semaphore != 0)
    ensures HolderPc(s).SWait? || HolderPc(s).BUnlockC? || HolderPc(s).BWait?
  {
    assert Working(s.pcs[t]) ==> t in Workers(s);
  }

  lemma HistoryWakes(s: State, t: nat, s': State)
    requires t < |s.pcs| == |s'.pcs| && s'.pcs == s.pcs[t := WRelockC(|s.sh.rounds|)]
    requires HistoryInv(s) && s.sh.rounds != [] && s'.sh.rounds == Wake(s.sh.rounds, t)
    requires Finished(s') == Finished(s) == |s.sh.rounds| - 1
    ensures HistoryInv(s')
  {
  }

  lemma Singleton(a: set<nat>, t: nat)
    requires |a| == 1 && t in a
    ensures a == {t}
  {
    assert |a - {t}| == 0;
  }

  lemma SignalAcquires(s: State, t: nat, s': State)
    requires t < |s.pcs| && s.pcs[t].WBlock? && s.sh.semaphore > 0 && SignalRound(s)
    requires s' == s.(pcs := s.pcs[t := WRelockC(|s.sh.rounds|)],
                      sh := s.sh.(semaphore := s.sh.semaphore - 1, rounds := Wake(s.sh.rounds, t)))
    ensures SignalRound(s')
  {
    SetsMove(s, s', t);
    assert Current(s').woken == {t};
    assert forall u: nat :: u < |s.pcs| ==> (u in Workers(s) <==> Working(s.pcs[u]));
  }

  /** Passing the semaphore takes a thread from the registered to the woken. */
  lemma WakeMoves(s: State, t: nat, s': State)
    requires t < |s.pcs| && s.pcs[t].WBlock? && s.sh.rounds != [] && Accounted(s)
    requires s'.pcs == s.pcs[t := WRelockC(|s.sh.rounds|)] && s'.sh.rounds == Wake(s.sh.rounds, t)
    ensures Accounted(s') && Current(s') == Current(s).(woken := Current(s).woken + {t})
    ensures t in Registered(s) && Registered(s') == Registered(s) - {t} && Workers(s') == Workers(s) + {t}
    ensures t in Counted(s) && Counted(s) == Counted(s')
  {
    SetsMove(s, s', t);
    assert Current(s').woken == Current(s).woken + {t};
    assert t in Counted(s);
    assert Counted(s) + {t} == Counted(s);
  }

  lemma BroadcastAcquires(s: State, t: nat, s': State)
    requires t < |s.pcs| && s.pcs[t].WBlock? && BroadcastRound(s) && s.sh.waiterCount == |Counted(s)|
    requires s' == s.(pcs := s.pcs[t := WRelockC(|s.sh.rounds|)],
                      sh := s.sh.(semaphore := s.sh.semaphore - 1, rounds := Wake(s.sh.rounds, t)))
    ensures BroadcastRound(s')
  {
    WakeMoves(s, t, s');
    assert s.sh.waiterCount != 0;
  }

  /** A woken thread of a signal checks out. */
  lemma SignalWorks(s: State, t: nat, s': State)
    requires t < |s.pcs| == |s'.pcs| && s'.pcs == s.pcs[t := s'.pcs[t]] && Working(s.pcs[t])
    requires SignalRound(s) && !s.sh.waitersDone
    requires s'.sh.(mtxCount := s.sh.mtxCount, waiterCount := s.sh.waiterCount, waitersDone := false) == s.sh
    requires s'.sh.waitersDone <==> !Working(s'.pcs[t])
    requires !IsRegistered(s'.pcs[t])
    requires s'.pcs[t].WReunlockC? ==> s'.pcs[t].last
    ensures SignalRound(s')
  {
    SetsMove(s, s', t);
    assert t in Workers(s);
    Singleton(Current(s).woken, t);
  }

  /** When the counter reaches zero, the thread that counted down is the only one left. */
  lemma LastWorker(s: State, t: nat)
    requires t < |s.pcs| && s.pcs[t].WDec? && MutexInv(s) && |Counted(s)| == 1
    requires forall u: nat :: u < |s.pcs| ==> !s.pcs[u].WSetEvent?
    ensures Workers(s) == {t}
  {
    assert t in Counted(s);
    Singleton(Counted(s), t);
    forall u: nat | u < |s.pcs| && u != t ensures u !in Workers(s) {
      assert u !in Counted(s) && s.sh.mtxCount == Some(t);
    }
  }

  lemma DecrementSets(s: State, t: nat, s': State)
    requires t < |s.pcs| && s.pcs[t].WDec? && s'.pcs == s.pcs[t := WTest(s.pcs[t].round)]
    ensures Registered(s') == Registered(s) && Workers(s') == Workers(s) && t in Counted(s)
  {
    SetsMove(s, s', t);
    assert t in Workers(s) && t !in Registered(s);
  }

  /** The thread of a broadcast that counts itself out: the last one will find the counter at zero. */
  lemma BroadcastDecrements(s: State, t: nat, s': State)
    requires t < |s.pcs| && s.pcs[t].WDec? && BroadcastRound(s) && MutexInv(s)
    requires s.sh.waiterCount == |Counted(s)|
    requires s' == s.(pcs := s.pcs[t := WTest(s.pcs[t].round)], sh := s.sh.(waiterCount := s.sh.waiterCount - 1))
    ensures BroadcastRound(s')
  {
    DecrementSets(s, t, s');
    assert forall u: nat :: u < |s.pcs| && s'.pcs[u].WReunlockC? ==> s.sh.mtxCount == Some(u) && u != t;
    if s.sh.waiterCount == 1 { LastWorker(s, t); }
  }

  /** The other check-out steps of a broadcast. */
  lemma BroadcastWorks(s: State, t: nat, s': State)
    requires t < |s.pcs| == |s'.pcs| && s'.pcs == s.pcs[t := s'.pcs[t]] && Working(s.pcs[t])
    requires BroadcastRound(s) && !IsRegistered(s'.pcs[t])
    requires s'.sh.(mtxCount := s.sh.mtxCount, waitersDone := s.sh.waitersDone) == s.sh
    requires if Working(s'.pcs[t]) then s'.sh.waitersDone == s.sh.waitersDone
             else if s'.sh.waitersDone then s.sh.waiterCount == 0 else s.sh.waiterCount != 0
    requires s'.pcs[t].WReunlockC? ==> s'.pcs[t].last == (s.sh.waiterCount == 0)
    requires s'.pcs[t].WSetEvent? ==> s.sh.waiterCount == 0
    ensures BroadcastRound(s')
  {
    SetsMove(s, s', t);
    assert t in Workers(s);
  }

  lemma WakeStep(s: State, t: nat, call: Call, s': State)
    requires Step(s, t, call, s') && s.pcs[t].WBlock?
    ensures s.sh.semaphore > 0
    ensures s' == s.(pcs := s.pcs[t := WRelockC(|s.sh.rounds|)],
                     sh := s.sh.(semaphore := s.sh.semaphore - 1, rounds := Wake(s.sh.rounds, t)))
  {
  }

  lemma SignalAcquireStep(s: State, t: nat, call: Call, s': State)
    requires Inv(s) && Step(s, t, call, s') && s.pcs[t].WBlock? && HolderPc(s).SWait?
    ensures HistoryInv(s') && PhaseInv(s')
  {
    HolderMoves(s, t, call, s');
    WakeStep(s, t, call, s');
    HistoryWakes(s, t, s');
    SignalAcquires(s, t, s');
  }

  lemma BroadcastAcquireStep(s: State, t: nat, call: Call, s': State)
    requires Inv(s) && Step(s, t, call, s') && s.pcs[t].WBlock? && (HolderPc(s).BUnlockC? || HolderPc(s).BWait?)
    ensures HistoryInv(s') && PhaseInv(s')
  {
    HolderMoves(s, t, call, s');
    WakeStep(s, t, call, s');
    HistoryWakes(s, t, s');
    BroadcastAcquires(s, t, s');
  }

  /** A check-out step, other than counting down, as the rest of the system sees it. */
  predicate ChecksOut(s: State, t: nat, s': State) {
    && t < |s.pcs| == |s'.pcs| && s'.pcs == s.pcs[t := s'.pcs[t]] && Working(s.pcs[t]) && HolderPc(s') == HolderPc(s)
    && s'.sh.(mtxCount := s.sh.mtxCount, waiterCount := s.sh.waiterCount, waitersDone := s.sh.waitersDone) == s.sh
    && var (pc, pc') := (s.pcs[t], s'.pcs[t]);
       && !IsRegistered(pc') && Awake(pc') && pc'.round == pc.round
       && (!pc.WDec? ==> s'.sh.waiterCount == s.sh.waiterCount)
       && (!pc.WSetEvent? ==> s'.sh.waitersDone == s.sh.waitersDone) && (pc.WSetEvent? ==> s'.sh.waitersDone)
       && (!Working(pc') <==> pc.WSetEvent? || (pc.WReunlockC? && !pc.last))
       && (pc'.WSetEvent? ==> pc.WReunlockC? && pc.last)
       && (pc'.WReunlockC? ==> pc'.last == (s.sh.waiterCount == 0 || !s.sh.isBroadcast))
  }

  lemma CheckOutMoves(s: State, t: nat, call: Call, s': State)
    requires MutexInv(s) && Step(s, t, call, s') && Working(s.pcs[t])
    ensures ChecksOut(s, t, s')
  {
    HolderMoves(s, t, call, s');
  }

  lemma CheckOutHistory(s: State, t: nat, s': State)
    requires ChecksOut(s, t, s') && HistoryInv(s)
    ensures HistoryInv(s')
  {
    HistoryKept(s, t, s');
  }

  lemma SignalCheckedOut(s: State, t: nat, s': State)
    requires ChecksOut(s, t, s') && SignalRound(s)
    ensures SignalRound(s')
  {
    assert t in Workers(s);
    SignalWorks(s, t, s');
  }

  lemma SignalCheckOut(s: State, t: nat, call: Call, s': State)
    requires Inv(s) && Step(s, t, call, s') && Working(s.pcs[t]) && HolderPc(s).SWait?
    ensures HistoryInv(s') && PhaseInv(s')
  {
    CheckOutMoves(s, t, call, s');
    CheckOutHistory(s, t, s');
    SignalCheckedOut(s, t, s');
  }

  lemma BroadcastCountOut(s: State, t: nat, call: Call, s': State)
    requires Inv(s) && Step(s, t, call, s') && s.pcs[t].WDec? && (HolderPc(s).BUnlockC? || HolderPc(s).BWait?)
    ensures HistoryInv(s') && PhaseInv(s')
  {
    HolderMoves(s, t, call, s');
    HistoryKept(s, t, s');
    BroadcastDecrements(s, t, s');
  }

  lemma BroadcastCheckedOut(s: State, t: nat, s': State)
    requires ChecksOut(s, t, s') && BroadcastRound(s) && !s.pcs[t].WDec?
    ensures BroadcastRound(s')
  {
    assert t in Workers(s);
    BroadcastWorks(s, t, s');
  }

  lemma BroadcastCheckOut(s: State, t: nat, call: Call, s': State)
    requires Inv(s) && Step(s, t, call, s') && Working(s.pcs[t]) && !s.pcs[t].WDec?
    requires HolderPc(s).BUnlockC? || HolderPc(s).BWait?
    ensures HistoryInv(s') && PhaseInv(s')
  {
    CheckOutMoves(s, t, call, s');
    CheckOutHistory(s, t, s');
    BroadcastCheckedOut(s, t, s');
  }

  lemma SignallerStep(s: State, t: nat, call: Call, s': State)
    requires Inv(s) && Step(s, t, call, s') && OwnsBroadcast(s.pcs[t]) && InSignal(s.pcs[t])
    ensures HistoryInv(s') && PhaseInv(s')
  {
    if s.pcs[t].SRead? || s.pcs[t] == SUnlockC(true) { SignalReads(s, t, call, s'); }
    else if s.pcs[t].SUnlockC? { NobodyToSignal(s, t, call, s'); }
    else if s.pcs[t].SRelease? { SignalReleases(s, t, call, s'); }
    else if s.pcs[t].SWait? { SignalCloses(s, t, call, s'); }
    else if s.pcs[t].SReset? { HolderTidies(s, t, call, s'); }
    else { HolderMoves(s, t, call, s'); QuietStep(s, t, call, s'); }
  }

  lemma BroadcasterStep(s: State, t: nat, call: Call, s': State)
    requires Inv(s) && Step(s, t, call, s') && OwnsBroadcast(s.pcs[t]) && !InSignal(s.pcs[t])
    ensures HistoryInv(s') && PhaseInv(s')
  {
    if s.pcs[t].BTest? && s.sh.waiterCount != 0 { BroadcastTests(s, t, call, s'); }
    else if s.pcs[t].BRelease? { BroadcastReleases(s, t, call, s'); }
    else if s.pcs[t].BUnlockC? { BroadcastUnlocks(s, t, call, s'); }
    else if s.pcs[t].BWait? { BroadcastCloses(s, t, call, s'); }
    else if s.pcs[t].BReset? || s.pcs[t].BClear? { HolderTidies(s, t, call, s'); }
    else { HolderMoves(s, t, call, s'); QuietStep(s, t, call, s'); }
  }

  lemma OtherStep(s: State, t: nat, call: Call, s': State)
    requires Inv(s) && Step(s, t, call, s') && !OwnsBroadcast(s.pcs[t])
    ensures HistoryInv(s') && PhaseInv(s')
  {
    HolderMoves(s, t, call, s');
    if s.pcs[t].WBlock? && s.sh.semaphore != 0 {
      WorkersHaveARound(s, t);
      if HolderPc(s).SWait? { SignalAcquireStep(s, t, call, s'); } else { BroadcastAcquireStep(s, t, call, s'); }
    } else if Working(s.pcs[t]) {
      WorkersHaveARound(s, t);
      if HolderPc(s).SWait? { SignalCheckOut(s, t, call, s'); }
      else if s.pcs[t].WDec? { BroadcastCountOut(s, t, call, s'); }
      else { BroadcastCheckOut(s, t, call, s'); }
    } else if Plain(HolderPc(s)) {
      QuietStep(s, t, call, s');
    } else {
      BystanderStep(s, t, call, s');
    }
  }

  /** The invariant survives every step of every thread. */
  lemma Preserved(s: State, t: nat, call: Call, s': State)
    requires Inv(s) && Step(s, t, call, s')
    ensures Inv(s')
  {
    MutexPreserved(s, t, call, s');
    CountPreserved(s, t, call, s');
    if !OwnsBroadcast(s.pcs[t]) { OtherStep(s, t, call, s'); }
    else if InSignal(s.pcs[t]) { SignallerStep(s, t, call, s'); }
    else { BroadcasterStep(s, t, call, s'); }
  }

  lemma InitInv(s: State)
    requires Init(s)
    ensures Inv(s)
  {
    assert Workers(s) == {} && Counted(s) == {};
  }

  lemma {:induction false} RunInv(run: seq<State>, i: nat)
    requires IsRun(run) && i < |run|
    ensures Inv(run[i])
    decreases i
  {
    if i == 0 {
      InitInv(run[0]);
    } else {
      RunInv(run, i - 1);
      assert Goes(run, i);
      var t: nat, call :| Step(run[i - 1], t, call, run[i]);
      Preserved(run[i - 1], t, call, run[i]);
    }
  }

  // ---- what the protocol guarantees -----------------------------------------------------------

  /** In every run, every signal round that is over released exactly one of the threads registered
      when it started, and every broadcast round exactly those registered when it started. */
  lemma RoundsAreExact(run: seq<State>, i: nat, k: nat)
    requires IsRun(run) && i < |run| && k < Finished(run[i])
    ensures k < |run[i].sh.rounds| && RoundOk(run[i].sh.rounds[k])
  {
    RunInv(run, i);
  }

  lemma CurrentIsOpen(s: State)
    requires PhaseInv(s) && Finished(s) < |s.sh.rounds|
    ensures s.sh.rounds != [] && Accounted(s) && Finished(s) == |s.sh.rounds| - 1
  {
  }

  /** Only registered threads are let through. */
  lemma WokenWereRegistered(s: State, k: nat)
    requires HistoryInv(s) && PhaseInv(s) && k < |s.sh.rounds|
    ensures s.sh.rounds[k].woken <= s.sh.rounds[k].registered
  {
    if k < Finished(s) {
      assert RoundOk(s.sh.rounds[k]);
    } else {
      CurrentIsOpen(s);
    }
  }

  /** No wait returns unless a round has let that very thread through. */
  lemma NoSpuriousWakeup(run: seq<State>, i: nat, t: nat)
    requires IsRun(run) && i < |run| && t < |run[i].pcs| && Awake(run[i].pcs[t])
    ensures var r := run[i].pcs[t].round;
            && 1 <= r <= |run[i].sh.rounds|
            && t in run[i].sh.rounds[r - 1].woken && t in run[i].sh.rounds[r - 1].registered
  {
    RunInv(run, i);
    WokenWereRegistered(run[i], run[i].pcs[t].round - 1);
  }

  /** With a permit left, every blocked thread belongs to the round and has not been let through. */
  lemma BlockedIsDue(s: State, t: nat)
    requires Inv(s) && t < |s.pcs| && s.pcs[t].WBlock? && s.sh.semaphore != 0
    ensures s.sh.rounds != [] && t in Current(s).registered && t !in Current(s).woken
  {
    WorkersHaveARound(s, t);
    CurrentIsOpen(s);
    assert t in Registered(s);
  }

  /** Getting through the semaphore spends the round's permit on a registered thread, once. */
  lemma WakesAreFresh(run: seq<State>, i: nat, t: nat, call: Call, s': State)
    requires IsRun(run) && i < |run| && Step(run[i], t, call, s') && run[i].pcs[t].WBlock?
    ensures run[i].sh.rounds != [] && t in Current(run[i]).registered && t !in Current(run[i]).woken
    ensures |s'.sh.rounds| == |run[i].sh.rounds| && Current(s').woken == Current(run[i]).woken + {t}
  {
    RunInv(run, i);
    WakeStep(run[i], t, call, s');
    BlockedIsDue(run[i], t);
  }

  /** With no round in progress the semaphore is empty, the event unset, the broadcast flag clear,
      and the counter is the number of registered threads, all of them still blocked. */
  lemma AtRest(run: seq<State>, i: nat)
    requires IsRun(run) && i < |run| && Plain(HolderPc(run[i]))
    ensures run[i].sh.semaphore == 0 && !run[i].sh.waitersDone && !run[i].sh.isBroadcast
    ensures run[i].sh.waiterCount == |Registered(run[i])|
    ensures Finished(run[i]) == |run[i].sh.rounds|
  {
    RunInv(run, i);
    CountedIsRegistered(run[i]);
  }

  /** A thread that has given up the external mutex inside wait is seen by the next signal or broadcast. */
  lemma NoLostWakeup(run: seq<State>, i: nat, t: nat, waker: nat, call: Call, s': State)
    requires IsRun(run) && i < |run| && t < |run[i].pcs| && run[i].pcs[t].WBlock?
    requires Step(run[i], waker, call, s') && (run[i].pcs[waker].SRead? || run[i].pcs[waker].BTest?)
    ensures s'.pcs[waker] == SUnlockC(true) || s'.pcs[waker] == BRelease
  {
    RunInv(run, i);
    assert t in Counted(run[i]);
  }

  // ---- what one call does ---------------------------------------------------------------------

  /** One round has been opened since `s0`, for exactly the threads registered then. */
  ghost predicate Opened(s0: State, s: State, kind: Kind) {
    && |s.sh.rounds| == |s0.sh.rounds| + 1 && s.sh.rounds[..|s0.sh.rounds|] == s0.sh.rounds
    && Current(s).kind == kind && Current(s).registered == Registered(s0) != {}
  }

  ghost predicate NotYet(s0: State, s: State) {
    s.sh.rounds == s0.sh.rounds && Registered(s) == Registered(s0)
  }

  /** How far the call of thread `t` has come that read the counter in `s0`. */
  ghost predicate SoFar(s0: State, s: State, t: nat)
    requires t < |s.pcs|
  {
    match s.pcs[t]
    case SRead => NotYet(s0, s)
    case SUnlockC(have) => NotYet(s0, s) && (have <==> Registered(s0) != {})
    case SRelease => NotYet(s0, s) && Registered(s0) != {}
    case SWait => Opened(s0, s, Signal)
    case SReset => Opened(s0, s, Signal)
    case SUnlockB => if Registered(s0) != {} then Opened(s0, s, Signal) else s.sh.rounds == s0.sh.rounds
    case BTest => NotYet(s0, s)
    case BRelease => NotYet(s0, s) && Registered(s0) != {}
    case BUnlockC => Opened(s0, s, Broadcast)
    case BWait => Opened(s0, s, Broadcast)
    case BReset => Opened(s0, s, Broadcast)
    case BClear => Opened(s0, s, Broadcast)
    case BUnlockCNone => s.sh.rounds == s0.sh.rounds && Registered(s0) == {}
    case BUnlockB => if Registered(s0) != {} then Opened(s0, s, Broadcast) else s.sh.rounds == s0.sh.rounds
    case _ => false
  }

  /** Only the owner of mtx_broadcast opens rounds and lets threads register. */
  lemma OthersOpenNone(s: State, t: nat, u: nat, call: Call, s': State)
    requires MutexInv(s) && Step(s, u, call, s') && t < |s.pcs| && OwnsBroadcast(s.pcs[t]) && u != t
    ensures |s'.pcs| == |s.pcs| && s'.pcs[t] == s.pcs[t] && !OwnsBroadcast(s.pcs[u])
    ensures s'.sh.rounds == s.sh.rounds || s'.sh.rounds == Wake(s.sh.rounds, u)
    ensures s.sh.semaphore <= 0 ==> s'.sh.rounds == s.sh.rounds && Registered(s') == Registered(s)
  {
    HolderMoves(s, u, call, s');
    SetsMove(s, s', u);
    OtherMove(s, u, call, s');
  }

  lemma OtherMove(s: State, u: nat, call: Call, s': State)
    requires Step(s, u, call, s') && !OwnsBroadcast(s.pcs[u])
    ensures s'.sh.rounds == s.sh.rounds || (s.sh.semaphore > 0 && s'.sh.rounds == Wake(s.sh.rounds, u))
    ensures s.sh.semaphore <= 0 ==> (IsRegistered(s'.pcs[u]) <==> IsRegistered(s.pcs[u]))
  {
  }

  lemma OthersKeepSoFar(s0: State, s: State, t: nat, u: nat, call: Call, s': State)
    requires Inv(s) && Step(s, u, call, s') && t < |s.pcs| && u != t && SoFar(s0, s, t)
    ensures |s'.pcs| == |s.pcs| && SoFar(s0, s', t)
  {
    OthersOpenNone(s, t, u, call, s');
    assert HolderPc(s) == s.pcs[t];
    var n := |s0.sh.rounds|;
    if s'.sh.rounds != s.sh.rounds { assert s'.sh.rounds[..n] == s.sh.rounds[..n]; }
  }

  /** Reading the counter tells whether somebody is registered. */
  lemma ReadTells(s: State, t: nat)
    requires Inv(s) && t < |s.pcs| && (s.pcs[t].SRead? || s.pcs[t].BTest?)
    ensures s.sh.waiterCount == 0 <==> Registered(s) == {}
  {
    assert HolderPc(s) == s.pcs[t];
    CountedIsRegistered(s);
  }

  /** What a step of the caller leaves of the rounds and the registered threads. */
  lemma OwnMove(s: State, t: nat, call: Call, s': State)
    requires Step(s, t, call, s') && (InSignal(s.pcs[t]) || InBroadcast(s.pcs[t]))
    ensures s'.pcs == s.pcs[t := s'.pcs[t]] && Registered(s') == Registered(s)
    ensures s'.sh.rounds == if s.pcs[t].SRelease? then s.sh.rounds + [Round(Signal, Registered(s), {})]
                            else if s.pcs[t].BRelease? then s.sh.rounds + [Round(Broadcast, Registered(s), {})]
                            else s.sh.rounds
  {
    assert !IsRegistered(s'.pcs[t]);
    SetsMove(s, s', t);
  }

  lemma OwnSignalStep(s0: State, s: State, t: nat, call: Call, s': State)
    requires Step(s, t, call, s') && SoFar(s0, s, t) && InSignal(s.pcs[t]) && InSignal(s'.pcs[t])
    requires s.pcs[t].SRead? ==> (s.sh.waiterCount == 0 <==> Registered(s) == {})
    ensures SoFar(s0, s', t)
  {
    OwnMove(s, t, call, s');
  }

  predicate InBroadcast(pc: Pc) { !pc.Idle? && !InWait(pc) && !InSignal(pc) }

  lemma OwnBroadcastStep(s0: State, s: State, t: nat, call: Call, s': State)
    requires Step(s, t, call, s') && SoFar(s0, s, t) && InBroadcast(s.pcs[t]) && InBroadcast(s'.pcs[t])
    requires s.pcs[t].BTest? ==> (s.sh.waiterCount == 0 <==> Registered(s) == {})
    ensures SoFar(s0, s', t)
  {
    OwnMove(s, t, call, s');
  }

  /** The call goes on from state `i` to state `j` of a run. */
  ghost predicate GoesOn(run: seq<State>, i: nat, j: nat, t: nat) {
    && i <= j < |run| && t < |run[i].pcs|
    && (forall k :: i <= k <= j ==> |run[k].pcs| == |run[i].pcs|)
    && (forall k :: i <= k <= j ==>
          if InSignal(run[i].pcs[t]) then InSignal(run[k].pcs[t]) else InBroadcast(run[k].pcs[t]))
  }

  lemma CallStep(s0: State, s: State, t: nat, u: nat, call: Call, s': State)
    requires Inv(s) && Step(s, u, call, s') && t < |s.pcs| == |s'.pcs| && SoFar(s0, s, t)
    requires SameCall(s.pcs[t], s'.pcs[t])
    ensures SoFar(s0, s', t)
  {
    if s.pcs[t].SRead? || s.pcs[t].BTest? { ReadTells(s, t); }
    if u != t { OthersKeepSoFar(s0, s, t, u, call, s'); }
    else if InSignal(s.pcs[t]) { OwnSignalStep(s0, s, t, call, s'); }
    else { OwnBroadcastStep(s0, s, t, call, s'); }
  }

  predicate SameCall(pc: Pc, pc': Pc) { (InSignal(pc) && InSignal(pc')) || (InBroadcast(pc) && InBroadcast(pc')) }

  lemma CallStepAt(s0: State, run: seq<State>, j: nat, t: nat)
    requires IsRun(run) && 0 < j < |run| && t < |run[j - 1].pcs| == |run[j].pcs| && SoFar(s0, run[j - 1], t)
    requires SameCall(run[j - 1].pcs[t], run[j].pcs[t])
    ensures SoFar(s0, run[j], t)
  {
    RunInv(run, j - 1);
    assert Goes(run, j);
    var u: nat, call :| Step(run[j - 1], u, call, run[j]);
    CallStep(s0, run[j - 1], t, u, call, run[j]);
  }

  lemma CallHolds(run: seq<State>, i: nat, j: nat, t: nat)
    requires GoesOn(run, i, j, t) && i < j
    ensures GoesOn(run, i, j - 1, t) && t < |run[j - 1].pcs| == |run[j].pcs|
    ensures SameCall(run[j - 1].pcs[t], run[j].pcs[t])
  {
  }

  lemma CallStarts(s: State, t: nat)
    requires t < |s.pcs| && (s.pcs[t].SRead? || s.pcs[t].BTest?)
    ensures SoFar(s, s, t)
  {
  }

  lemma {:induction false} CallGoesOn(run: seq<State>, i: nat, j: nat, t: nat)
    requires IsRun(run) && GoesOn(run, i, j, t) && (run[i].pcs[t].SRead? || run[i].pcs[t].BTest?)
    ensures t < |run[j].pcs| && SoFar(run[i], run[j], t)
    decreases j
  {
    if i == j {
      CallStarts(run[i], t);
    } else {
      CallHolds(run, i, j, t);
      CallGoesOn(run, i, j - 1, t);
      CallStepAt(run[i], run, j, t);
    }
  }

  /** From reading the counter to giving mtx_broadcast back, a signal lets through exactly one of the threads that
      were registered, and nobody when nobody was; in between no other round is opened. */
  lemma SignalWakesOne(run: seq<State>, i: nat, j: nat, t: nat)
    requires IsRun(run) && GoesOn(run, i, j, t) && run[i].pcs[t].SRead? && run[j].pcs[t].SUnlockB?
    ensures if Registered(run[i]) == {} then run[j].sh.rounds == run[i].sh.rounds
            else exists w: nat | w in Registered(run[i]) ::
                   run[j].sh.rounds == run[i].sh.rounds + [Round(Signal, Registered(run[i]), {w})]
  {
    CallGoesOn(run, i, j, t);
    RunInv(run, j);
    if Registered(run[i]) != {} {
      var r := Current(run[j]);
      assert RoundOk(r);
      var w: nat :| w in r.woken;
      Singleton(r.woken, w);
      assert run[j].sh.rounds == run[i].sh.rounds + [r];
    }
  }

  /** A broadcast lets through all the threads that were registered and nobody else. */
  lemma BroadcastWakesAll(run: seq<State>, i: nat, j: nat, t: nat)
    requires IsRun(run) && GoesOn(run, i, j, t) && run[i].pcs[t].BTest? && run[j].pcs[t].BUnlockB?
    ensures run[j].sh.rounds == run[i].sh.rounds
      + if Registered(run[i]) == {} then [] else [Round(Broadcast, Registered(run[i]), Registered(run[i]))]
  {
    CallGoesOn(run, i, j, t);
    RunInv(run, j);
    if Registered(run[i]) != {} {
      assert RoundOk(Current(run[j]));
      assert run[j].sh.rounds == run[i].sh.rounds + [Current(run[j])];
    }
  }

  // ---- the caller's critical section ----------------------------------------------------------

  /** Whoever is inside its critical section, by its own calls, owns the mutex, and nobody else is inside or
      still holds the mutex in a wait; and a mutex that is locked has such a holder. */
  lemma InsideExcludes(run: seq<State>, i: nat)
    requires IsRun(run) && i < |run|
    ensures forall t: nat :: t < |run[i].pcs| ==> (Holds(run[i], t) <==> run[i].sh.external == Some(t))
    ensures forall t: nat, u: nat ::
      t < |run[i].pcs| && u < |run[i].pcs| && Holds(run[i], t) && Holds(run[i], u) ==> t == u
    ensures forall t :: t in run[i].inside ==> t < |run[i].pcs| && !InWait(run[i].pcs[t])
  {
    RunInv(run, i);
  }

  lemma NobodyInside(s: State)
    requires MutexInv(s) && s.sh.external == None
    ensures s.inside == {}
  {
    assert forall u: nat :: u in s.inside ==> u < |s.pcs| && (Holds(s, u) <==> s.sh.external == Some(u));
  }

  /** A wait returns into the critical section: nobody was inside, and the returning thread now owns the mutex. */
  lemma WaitReturnsInside(run: seq<State>, i: nat, t: nat, call: Call, s': State)
    requires IsRun(run) && i < |run| && Step(run[i], t, call, s') && InWait(run[i].pcs[t]) && !InWait(s'.pcs[t])
    ensures run[i].inside == {} && s'.inside == {t} && run[i].sh.external == None && s'.sh.external == Some(t)
  {
    RunInv(run, i);
    Preserved(run[i], t, call, s');
    ExternalTransfers(run[i], t, call, s');
    WaitMovesExternal(run[i].pcs[t], run[i].sh, t);
    assert run[i].sh.external == None;
    NobodyInside(run[i]);
  }

  // ---- progress -------------------------------------------------------------------------------

  /** How many steps the thread may still take before the round is done with it. */
  function Rank(pc: Pc): nat {
    match pc
    case WUnlockExt => 7
    case WBlock => 6
    case WRelockC(_) => 5
    case WDec(_) => 4
    case WTest(_) => 3
    case WReunlockC(_, _) => 2
    case WSetEvent(_) => 1
    case _ => 0
  }

  function Work(pcs: seq<Pc>): nat {
    if pcs == [] then 0 else Rank(pcs[0]) + Work(pcs[1..])
  }

  lemma {:induction false} WorkMoves(pcs: seq<Pc>, t: nat, pc: Pc)
    requires t < |pcs|
    ensures Work(pcs[t := pc]) == Work(pcs) - Rank(pcs[t]) + Rank(pc)
  {
    if t == 0 {
      assert pcs[0 := pc][1..] == pcs[1..];
    } else {
      assert pcs[t := pc][1..] == pcs[1..][t - 1 := pc];
      WorkMoves(pcs[1..], t - 1, pc);
    }
  }

  predicate WaitsForRound(s: State) { (HolderPc(s).SWait? || HolderPc(s).BWait?) && !s.sh.waitersDone }

  /** Threads of a round that is not over, in a state where nobody has checked out yet. */
  lemma PermitLeft(s: State)
    requires Inv(s) && WaitsForRound(s) && Workers(s) == {}
    ensures s.sh.semaphore > 0 && Registered(s) != {}
  {
    CountedIsRegistered(s);
    if HolderPc(s).SWait? { SignalPermit(s); } else { BroadcastPermit(s); }
  }

  lemma SignalPermit(s: State)
    requires SignalRound(s) && !s.sh.waitersDone && Workers(s) == {}
    ensures s.sh.semaphore > 0 && Registered(s) != {}
  {
  }

  lemma BroadcastPermit(s: State)
    requires BroadcastRound(s) && !s.sh.waitersDone && Workers(s) == {}
    requires s.sh.waiterCount == 0 <==> Registered(s) == {}
    ensures s.sh.semaphore > 0 && Registered(s) != {}
  {
  }

  lemma WorkerCanStep(s: State, t: nat)
    requires MutexInv(s) && t < |s.pcs| && Working(s.pcs[t])
    requires s.sh.mtxCount.Some? ==> s.sh.mtxCount.value == t
    ensures Rank(s.pcs[t]) > 0 && MoveOf(s, t, Wait).To?
  {
  }

  lemma RegisteredCanStep(s: State, t: nat)
    requires MutexInv(s) && t in Registered(s) && WaitsForRound(s) && s.sh.semaphore > 0
    ensures Rank(s.pcs[t]) > 0 && MoveOf(s, t, Wait).To?
  {
    assert !OwnsBroadcast(s.pcs[t]);
  }

  lemma CounterOwnerWorks(s: State)
    requires MutexInv(s) && WaitsForRound(s) && s.sh.mtxCount.Some?
    ensures Working(s.pcs[s.sh.mtxCount.value])
  {
    var t := s.sh.mtxCount.value;
    assert OwnsCount(s.pcs[t]);
    assert OwnsBroadcast(s.pcs[t]) ==> s.pcs[t] == HolderPc(s);
  }

  /** Whoever waits on waiters_done in vain always has a thread of the round that can step. */
  lemma SomeWaiterCanStep(run: seq<State>, i: nat) returns (t: nat)
    requires IsRun(run) && i < |run| && WaitsForRound(run[i])
    ensures t < |run[i].pcs| && Rank(run[i].pcs[t]) > 0
    ensures MoveOf(run[i], t, Wait).To?
  {
    RunInv(run, i);
    t := FreeThread(run[i]);
    if Working(run[i].pcs[t]) { WorkerCanStep(run[i], t); } else { RegisteredCanStep(run[i], t); }
  }

  lemma FreeThread(s: State) returns (t: nat)
    requires Inv(s) && WaitsForRound(s)
    ensures t < |s.pcs|
    ensures || (Working(s.pcs[t]) && (s.sh.mtxCount.Some? ==> s.sh.mtxCount.value == t))
            || (t in Registered(s) && s.sh.semaphore > 0)
  {
    if s.sh.mtxCount.Some? {
      CounterOwnerWorks(s);
      t := s.sh.mtxCount.value;
    } else if w: nat :| w in Workers(s) {
      t := w;
    } else {
      assert Workers(s) == {};
      PermitLeft(s);
      t :| t in Registered(s);
    }
  }

  /** The thread is inside one of the three functions and not asleep in a wait: neither waiting to be woken nor for
      the caller's mutex. */
  predicate Busy(pc: Pc) { !pc.Idle? && !pc.WBlock? && !pc.WLockExt? }

  /** What can hold a busy thread up: one of the two mutexes, or the event. */
  lemma BusyIsHeldUp(s: State, t: nat)
    requires t < |s.pcs| && Busy(s.pcs[t]) && MoveOf(s, t, Wait).Blocked?
    ensures var pc := s.pcs[t];
      || ((pc.WLockB? || pc.SLockB? || pc.BLockB?) && s.sh.mtxBroadcast.Some?)
      || ((pc.WLockC? || pc.SLockC? || pc.BLockC? || pc.WRelockC?) && s.sh.mtxCount.Some?)
      || ((pc.SWait? || pc.BWait?) && !s.sh.waitersDone)
  {
  }

  lemma CountOwnerMoves(s: State, t: nat)
    requires t < |s.pcs| && OwnsCount(s.pcs[t])
    ensures MoveOf(s, t, Wait).To?
  {
  }

  /** A thread that a busy thread waits for, directly or through the owner of mtx_broadcast, and that can step. */
  lemma Unblocker(s: State, t: nat) returns (u: nat)
    requires MutexInv(s) && !WaitsForRound(s) && t < |s.pcs| && Busy(s.pcs[t])
    ensures u < |s.pcs| && !s.pcs[u].Idle? && MoveOf(s, u, Wait).To?
  {
    u := t;
    if MoveOf(s, u, Wait).Blocked? {
      BusyIsHeldUp(s, u);
      if s.pcs[u].WLockB? || s.pcs[u].SLockB? || s.pcs[u].BLockB? {
        u := s.sh.mtxBroadcast.value;
        assert OwnsBroadcast(s.pcs[u]) && HolderPc(s) == s.pcs[u];
        if MoveOf(s, u, Wait).Blocked? { BusyIsHeldUp(s, u); }
      }
      if MoveOf(s, u, Wait).Blocked? {
        u := s.sh.mtxCount.value;
        CountOwnerMoves(s, u);
      }
    }
  }

  /** No deadlock: while any thread is busy in one of the three functions, some thread in them can step, whatever the
      callers do with their mutex. */
  lemma NoDeadlock(run: seq<State>, i: nat, t: nat) returns (u: nat)
    requires IsRun(run) && i < |run| && t < |run[i].pcs| && Busy(run[i].pcs[t])
    ensures u < |run[i].pcs| && !run[i].pcs[u].Idle? && MoveOf(run[i], u, Wait).To?
  {
    RunInv(run, i);
    if WaitsForRound(run[i]) { u := SomeWaiterCanStep(run, i); } else { u := Unblocker(run[i], t); }
  }

  lemma RankFalls(pc: Pc, sh: Shared, t: nat)
    requires !OwnsBroadcast(pc)
    ensures var m := MoveWait(pc, sh, t);
            m.To? ==> Rank(m.pc) <= Rank(pc) && (Rank(pc) > 0 ==> Rank(m.pc) < Rank(pc))
  {
  }

  /** While the round lasts, each step of one of its threads uses up some of a finite amount of work,
      and no other step adds any: so `waiters_done` is set after boundedly many of these steps. */
  lemma WorkRunsOut(run: seq<State>, i: nat, t: nat, call: Call, s': State)
    requires IsRun(run) && i < |run| && WaitsForRound(run[i]) && Step(run[i], t, call, s')
    ensures Work(s'.pcs) <= Work(run[i].pcs)
    ensures Rank(run[i].pcs[t]) > 0 ==> Work(s'.pcs) < Work(run[i].pcs)
  {
    RunInv(run, i);
    StepLowersRank(run[i], t, call, s');
    WorkMoves(run[i].pcs, t, s'.pcs[t]);
  }

  lemma StepLowersRank(s: State, t: nat, call: Call, s': State)
    requires MutexInv(s) && WaitsForRound(s) && Step(s, t, call, s')
    ensures t < |s.pcs| && s'.pcs == s.pcs[t := s'.pcs[t]]
    ensures Rank(s'.pcs[t]) <= Rank(s.pcs[t]) && (Rank(s.pcs[t]) > 0 ==> Rank(s'.pcs[t]) < Rank(s.pcs[t]))
  {
    WaiterKeepsOut(s, t, call, s');
    RankFalls(s.pcs[t], s.sh, t);
    if InWait(s.pcs[t]) { assert MoveOf(s, t, call) == MoveWait(s.pcs[t], s.sh, t); }
  }

  /** A step of a thread that the round may still need. */
  ghost predicate RankedStep(s: State, s': State) {
    exists t: nat, call :: Step(s, t, call, s') && Rank(s.pcs[t]) > 0
  }

  ghost function RankedSteps(run: seq<State>, i: nat, j: nat): nat
    requires i <= j < |run|
    decreases j
  {
    if i == j then 0 else RankedSteps(run, i, j - 1) + if RankedStep(run[j - 1], run[j]) then 1 else 0
  }

  lemma OneStep(run: seq<State>, k: nat)
    requires IsRun(run) && k + 1 < |run| && WaitsForRound(run[k])
    ensures Work(run[k + 1].pcs) + (if RankedStep(run[k], run[k + 1]) then 1 else 0) <= Work(run[k].pcs)
  {
    var (s, s') := (run[k], run[k + 1]);
    assert Goes(run, k + 1);
    var t: nat, call :| Step(s, t, call, s') && (RankedStep(s, s') ==> Rank(s.pcs[t]) > 0);
    WorkRunsOut(run, k, t, call, s');
  }

  /** While somebody waits for `waiters_done` in vain, the threads of the round take at most as many steps as
      there was work at the start, in every interleaving with any number of other steps. */
  lemma {:induction false} RoundIsBounded(run: seq<State>, i: nat, j: nat)
    requires IsRun(run) && i <= j < |run| && forall k :: i <= k < j ==> WaitsForRound(run[k])
    ensures RankedSteps(run, i, j) + Work(run[j].pcs) <= Work(run[i].pcs)
    decreases j
  {
    if i < j {
      RoundIsBounded(run, i, j - 1);
      OneStep(run, j - 1);
    }
  }

  lemma WaiterKeepsOut(s: State, t: nat, call: Call, s': State)
    requires MutexInv(s) && WaitsForRound(s) && Step(s, t, call, s')
    ensures !OwnsBroadcast(s.pcs[t])
    ensures !InWait(s.pcs[t]) ==> Rank(s.pcs[t]) == 0 && Rank(s'.pcs[t]) == 0
  {
    HolderMoves(s, t, call, s');
  }
}
