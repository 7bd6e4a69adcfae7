/** The LWLock tracker: probes of interleaved processes updating global arrays,
    and a reference ledger that says what each process did. */
module LockTracker {
  import opened Wrappers

  import opened Tally

  const LW_EXCLUSIVE := 0
  const LW_SHARED := 1

  /** Options, fixed for a run. */
  datatype Options = Options(trackHolds: bool, trackPerProcess: bool, cumulative: bool)

  datatype Completion = LockAcquired | LockFailed | VarDone

  datatype Event =
    | AcquireStart(pid: int, func: string)
    | WaitStart(pid: int, lock: int, now: int)
    | Done(pid: int, how: Completion, mode: int, lock: int, tranche: int, now: int)
    | AcquireEnd(pid: int)
    | Release(pid: int, mode: int, lock: int, tranche: int, now: int)
    | Summary
    | ProcessEnd(pid: int)

  datatype HoldKey = HoldKey(pid: int, lock: int, mode: int)

  /** The script's arrays; failed says that a sanity assertion has fired. */
  datatype Tracker = Tracker(
    waitStart: map<int, int>, waitLock: map<int, int>, acquireFunc: map<int, string>,
    held: map<HoldKey, int>,
    waitAll: Table, waitPid: Table, heldAll: Table, heldPid: Table, failed: bool)

  const INIT := Tracker(map[], map[], map[], map[], map[], map[], map[], map[], false)

  /** Reading an array at a missing index gives zero. */
  function Get<K>(m: map<K, int>, k: K): int {
    if k in m then m[k] else 0
  }

  /** delete locks_held_by_pid[pid, lock, *] */
  function DropLock(held: map<HoldKey, int>, pid: int, lock: int): map<HoldKey, int> {
    map k | k in held && !(k.pid == pid && k.lock == lock) :: held[k]
  }

  /** delete locks_held_by_pid[pid, *, *] */
  function DropHolder(held: map<HoldKey, int>, pid: int): map<HoldKey, int> {
    map k | k in held && k.pid != pid :: held[k]
  }

  function Check(t: Tracker, ok: bool): Tracker {
    t.(failed := t.failed || !ok)
  }

  predicate ValidMode(mode: int) {
    mode == LW_EXCLUSIVE || mode == LW_SHARED
  }

  function OnAcquireStart(t: Tracker, pid: int, func: string): Tracker {
    var clear := pid !in t.acquireFunc && pid !in t.waitStart && pid !in t.waitLock;
    Check(t, clear).(acquireFunc := t.acquireFunc[pid := func])
  }

  function OnWaitStart(t: Tracker, pid: int, lock: int, now: int): Tracker {
    if pid !in t.waitStart then t.(waitStart := t.waitStart[pid := now], waitLock := t.waitLock[pid := lock])
    else Check(t, Get(t.waitLock, pid) == lock)
  }

  function AppendWait(o: Options, t: Tracker, pid: int, tranche: int, mode: int, d: int): Tracker {
    t.(waitAll := Append(t.waitAll, ALL_PROCS, tranche, mode, d),
       waitPid := if o.trackPerProcess then Append(t.waitPid, pid, tranche, mode, d) else t.waitPid)
  }

  function AppendHeld(o: Options, t: Tracker, pid: int, tranche: int, mode: int, d: int): Tracker {
    t.(heldAll := Append(t.heldAll, ALL_PROCS, tranche, mode, d),
       heldPid := if o.trackPerProcess then Append(t.heldPid, pid, tranche, mode, d) else t.heldPid)
  }

  /** The lwlock__acquired probe for holds. */
  function RememberHold(o: Options, t: Tracker, pid: int, mode: int, lock: int, now: int): Tracker {
    if o.trackHolds then Check(t, ValidMode(mode)).(held := t.held[HoldKey(pid, lock, mode) := now]) else t
  }

  /** The probe shared by the three ways an acquire attempt completes. */
  function OnDone(o: Options, t: Tracker, pid: int, mode: int, lock: int, tranche: int, now: int): Tracker {
    var start := Get(t.waitStart, pid);
    var t1 := if start == 0 then t
              else AppendWait(o, Check(t, Get(t.waitLock, pid) == lock), pid, tranche, mode, now - start);
    t1.(waitStart := t.waitStart - {pid}, acquireFunc := t.acquireFunc - {pid}, waitLock := t.waitLock - {pid})
  }

  function OnRelease(o: Options, t: Tracker, pid: int, mode: int, lock: int, tranche: int, now: int): Tracker {
    if !o.trackHolds then t else
    var acquired := Get(t.held, HoldKey(pid, lock, mode));
    var t1 := Check(t, ValidMode(mode));
    var t2 := if acquired == 0 then t1 else AppendHeld(o, t1, pid, tranche, mode, now - acquired);
    t2.(held := DropLock(t.held, pid, lock))
  }

  function OnSummary(o: Options, t: Tracker): Tracker {
    if o.cumulative then t else t.(heldAll := map[], waitAll := map[])
  }

  function OnProcessEnd(o: Options, t: Tracker, pid: int): Tracker {
    t.(heldPid := if o.trackPerProcess then DropProc(t.heldPid, pid) else t.heldPid,
       held := if o.trackHolds then DropHolder(t.held, pid) else t.held,
       waitStart := t.waitStart - {pid}, acquireFunc := t.acquireFunc - {pid}, waitLock := t.waitLock - {pid})
  }

  /** lwlock__waitforvar__done reports its waits as exclusive. */
  function DoneMode(how: Completion, mode: int): int {
    if how.VarDone? then LW_EXCLUSIVE else mode
  }

  function Step(o: Options, t: Tracker, e: Event): Tracker {
    match e
    case AcquireStart(pid, func) => OnAcquireStart(t, pid, func)
    case WaitStart(pid, lock, now) => OnWaitStart(t, pid, lock, now)
    case Done(pid, how, mode, lock, tranche, now) =>
      var t1 := if how.LockAcquired? then RememberHold(o, t, pid, mode, lock, now) else t;
      OnDone(o, t1, pid, DoneMode(how, mode), lock, tranche, now)
    case AcquireEnd(pid) => Check(t, pid !in t.acquireFunc)
    case Release(pid, mode, lock, tranche, now) => OnRelease(o, t, pid, mode, lock, tranche, now)
    case Summary => OnSummary(o, t)
    case ProcessEnd(pid) => OnProcessEnd(o, t, pid)
  }

  function Run(o: Options, trace: seq<Event>): Tracker {
    if trace == [] then INIT else Step(o, Run(o, trace[..|trace| - 1]), trace[|trace| - 1])
  }

  // --------------------------------------------------------------------- the ledger

  /** Where a process is: since is when it first went to sleep for the lock. */
  datatype Phase = Outside | Inside | Waiting(lock: int, since: int)

  /** What happened, told without the script's arrays: the phase of every process,
      the locks held and since when, and the samples each table should contain. */
  datatype Ledger = Ledger(phase: map<int, Phase>, held: map<HoldKey, int>,
                           waitAll: seq<Sample>, waitPid: seq<Sample>, heldAll: seq<Sample>, heldPid: seq<Sample>)

  const EMPTY := Ledger(map[], map[], [], [], [], [])

  function PhaseOf(l: Ledger, pid: int): Phase {
    if pid in l.phase then l.phase[pid] else Outside
  }

  /** What the server does: a process starts one acquire at a time, sleeps and wakes
      any number of times for one lock, then gets it or gives up. */
  predicate Allowed(l: Ledger, e: Event) {
    match e
    case AcquireStart(pid, _) => PhaseOf(l, pid).Outside?
    case WaitStart(pid, lock, now) => now > 0 && (PhaseOf(l, pid).Waiting? ==> PhaseOf(l, pid).lock == lock)
    case Done(pid, how, mode, lock, tranche, now) =>
      && now > 0 && tranche != ALL_TRANCHES && (how.LockAcquired? ==> ValidMode(mode))
      && (PhaseOf(l, pid).Waiting? ==> PhaseOf(l, pid).lock == lock)
    case AcquireEnd(pid) => PhaseOf(l, pid).Outside?
    case Release(_, mode, _, tranche, _) => ValidMode(mode) && tranche != ALL_TRANCHES
    case _ => true
  }

  function RecordWait(o: Options, l: Ledger, pid: int, tranche: int, mode: int, d: int): Ledger {
    l.(waitAll := l.waitAll + [Sample(Key(ALL_PROCS, tranche, mode), d)],
       waitPid := if o.trackPerProcess then l.waitPid + [Sample(Key(pid, tranche, mode), d)] else l.waitPid)
  }

  function RecordHold(o: Options, l: Ledger, pid: int, tranche: int, mode: int, d: int): Ledger {
    l.(heldAll := l.heldAll + [Sample(Key(ALL_PROCS, tranche, mode), d)],
       heldPid := if o.trackPerProcess then l.heldPid + [Sample(Key(pid, tranche, mode), d)] else l.heldPid)
  }

  function Follow(o: Options, l: Ledger, e: Event): Ledger {
    match e
    case AcquireStart(pid, _) => l.(phase := l.phase[pid := Inside])
    case WaitStart(pid, lock, now) =>
      if PhaseOf(l, pid).Waiting? then l else l.(phase := l.phase[pid := Waiting(lock, now)])
    case Done(pid, how, mode, lock, tranche, now) =>
      var p := PhaseOf(l, pid);
      var l1 := if p.Waiting? then RecordWait(o, l, pid, tranche, DoneMode(how, mode), now - p.since) else l;
      l1.(phase := l.phase[pid := Outside],
          held := if how.LockAcquired? && o.trackHolds then l.held[HoldKey(pid, lock, mode) := now] else l.held)
    case AcquireEnd(_) => l
    case Release(pid, mode, lock, tranche, now) =>
      if !o.trackHolds then l else
      var k := HoldKey(pid, lock, mode);
      var l1 := if k in l.held then RecordHold(o, l, pid, tranche, mode, now - l.held[k]) else l;
      l1.(held := DropLock(l.held, pid, lock))
    case Summary => if o.cumulative then l else l.(waitAll := [], heldAll := [])
    case ProcessEnd(pid) =>
      l.(phase := l.phase[pid := Outside],
         heldPid := if o.trackPerProcess then DropSamples(l.heldPid, pid) else l.heldPid,
         held := if o.trackHolds then DropHolder(l.held, pid) else l.held)
  }

  function Told(o: Options, trace: seq<Event>): Ledger {
    if trace == [] then EMPTY else Follow(o, Told(o, trace[..|trace| - 1]), trace[|trace| - 1])
  }

  ghost predicate Legal(o: Options, trace: seq<Event>) {
    forall i :: 0 <= i < |trace| ==> Allowed(Told(o, trace[..i]), trace[i])
  }

  lemma LegalPrefix(o: Options, trace: seq<Event>)
    requires Legal(o, trace) && trace != []
    ensures var before, e := trace[..|trace| - 1], trace[|trace| - 1];
            Legal(o, before) && Allowed(Told(o, before), e) && Told(o, trace) == Follow(o, Told(o, before), e)
  {
    var before := trace[..|trace| - 1];
    forall i | 0 <= i < |before| ensures Allowed(Told(o, before[..i]), before[i]) {
      assert before[..i] == trace[..i];
    }
    assert trace[..|trace| - 1] == before;
  }

  // ---------------------------------------------------------------------- agreement

  ghost predicate PhaseAgrees(t: Tracker, l: Ledger, pid: int) {
    match PhaseOf(l, pid)
    case Outside => pid !in t.waitStart && pid !in t.waitLock && pid !in t.acquireFunc
    case Inside => pid !in t.waitStart && pid !in t.waitLock
    case Waiting(lock, since) =>
      since > 0 && pid in t.waitStart && t.waitStart[pid] == since && pid in t.waitLock && t.waitLock[pid] == lock
  }

  ghost predicate PhasesAgree(t: Tracker, l: Ledger) {
    !t.failed && forall pid :: PhaseAgrees(t, l, pid)
  }

  ghost predicate HoldsAgree(t: Tracker, l: Ledger) {
    t.held == l.held && forall k :: k in l.held ==> l.held[k] > 0
  }

  ghost predicate TablesAgree(t: Tracker, l: Ledger) {
    && Tallies(t.waitAll, l.waitAll) && Tallies(t.waitPid, l.waitPid)
    && Tallies(t.heldAll, l.heldAll) && Tallies(t.heldPid, l.heldPid)
  }

  ghost predicate Agree(t: Tracker, l: Ledger) {
    PhasesAgree(t, l) && HoldsAgree(t, l) && TablesAgree(t, l)
  }

  /** Only the process of the event can change its phase. */
  lemma OthersKeepPhase(t: Tracker, l: Ledger, t': Tracker, l': Ledger, pid: int)
    requires forall p :: PhaseAgrees(t, l, p)
    requires forall p :: p != pid ==>
               && PhaseOf(l', p) == PhaseOf(l, p)
               && (p in t'.waitStart <==> p in t.waitStart) && (p in t'.waitLock <==> p in t.waitLock)
               && (p in t'.acquireFunc <==> p in t.acquireFunc)
               && Get(t'.waitStart, p) == Get(t.waitStart, p) && Get(t'.waitLock, p) == Get(t.waitLock, p)
    requires PhaseAgrees(t', l', pid)
    ensures forall p :: PhaseAgrees(t', l', p)
  {
    forall p ensures PhaseAgrees(t', l', p) {
      assert PhaseAgrees(t, l, p);
    }
  }

  lemma DoneKeepsPhases(o: Options, t: Tracker, l: Ledger, e: Event)
    requires PhasesAgree(t, l) && e.Done? && Allowed(l, e)
    ensures PhasesAgree(Step(o, t, e), Follow(o, l, e))
  {
    assert PhaseAgrees(t, l, e.pid);
    OthersKeepPhase(t, l, Step(o, t, e), Follow(o, l, e), e.pid);
  }

  lemma WaitStartKeepsPhases(o: Options, t: Tracker, l: Ledger, e: Event)
    requires PhasesAgree(t, l) && Allowed(l, e) && e.WaitStart?
    ensures PhasesAgree(Step(o, t, e), Follow(o, l, e))
  {
    assert PhaseAgrees(t, l, e.pid);
    if PhaseOf(l, e.pid).Waiting? {
      assert OnWaitStart(t, e.pid, e.lock, e.now) == t;
    } else {
      var t', l' := OnWaitStart(t, e.pid, e.lock, e.now), Follow(o, l, e);
      assert PhaseOf(l', e.pid) == Waiting(e.lock, e.now);
      OthersKeepPhase(t, l, t', l', e.pid);
    }
  }

  lemma AcquireKeepsPhases(o: Options, t: Tracker, l: Ledger, e: Event)
    requires PhasesAgree(t, l) && Allowed(l, e) && (e.AcquireStart? || e.AcquireEnd?)
    ensures PhasesAgree(Step(o, t, e), Follow(o, l, e))
  {
    assert PhaseAgrees(t, l, e.pid);
    OthersKeepPhase(t, l, Step(o, t, e), Follow(o, l, e), e.pid);
  }

  lemma ExitKeepsPhases(o: Options, t: Tracker, l: Ledger, pid: int)
    requires PhasesAgree(t, l)
    ensures PhasesAgree(Step(o, t, ProcessEnd(pid)), Follow(o, l, ProcessEnd(pid)))
  {
    assert PhaseAgrees(t, l, pid);
    OthersKeepPhase(t, l, OnProcessEnd(o, t, pid), Follow(o, l, ProcessEnd(pid)), pid);
  }

  /** Releases and summaries do not touch the wait state at all. */
  lemma OtherKeepsPhases(o: Options, t: Tracker, l: Ledger, e: Event)
    requires PhasesAgree(t, l) && Allowed(l, e) && (e.Release? || e.Summary?)
    ensures PhasesAgree(Step(o, t, e), Follow(o, l, e))
  {
    var t', l' := Step(o, t, e), Follow(o, l, e);
    if e.Release? { ReleaseEffect(o, t, e); }
    assert t'.waitStart == t.waitStart && t'.waitLock == t.waitLock && t'.acquireFunc == t.acquireFunc;
    assert l'.phase == l.phase && !t'.failed;
    forall pid ensures PhaseAgrees(t', l', pid) {
      assert PhaseAgrees(t, l, pid);
    }
  }

  lemma StepKeepsPhases(o: Options, t: Tracker, l: Ledger, e: Event)
    requires PhasesAgree(t, l) && Allowed(l, e)
    ensures PhasesAgree(Step(o, t, e), Follow(o, l, e))
  {
    match e
    case Done(_, _, _, _, _, _) => DoneKeepsPhases(o, t, l, e);
    case WaitStart(_, _, _) => WaitStartKeepsPhases(o, t, l, e);
    case AcquireStart(_, _) => AcquireKeepsPhases(o, t, l, e);
    case AcquireEnd(_) => AcquireKeepsPhases(o, t, l, e);
    case ProcessEnd(pid) => ExitKeepsPhases(o, t, l, pid);
    case _ => OtherKeepsPhases(o, t, l, e);
  }

  /** How an event changes the locks held, in either account. */
  function HeldAfter(o: Options, held: map<HoldKey, int>, e: Event): map<HoldKey, int> {
    if !o.trackHolds then held
    else if e.Done? && e.how.LockAcquired? then held[HoldKey(e.pid, e.lock, e.mode) := e.now]
    else if e.Release? then DropLock(held, e.pid, e.lock)
    else if e.ProcessEnd? then DropHolder(held, e.pid)
    else held
  }

  lemma DoneHolds(o: Options, t: Tracker, pid: int, mode: int, lock: int, tranche: int, now: int)
    ensures OnDone(o, t, pid, mode, lock, tranche, now).held == t.held
  {
  }

  lemma StepHolds(o: Options, t: Tracker, e: Event)
    ensures Step(o, t, e).held == HeldAfter(o, t.held, e)
  {
    if e.Done? {
      var t1 := if e.how.LockAcquired? then RememberHold(o, t, e.pid, e.mode, e.lock, e.now) else t;
      DoneHolds(o, t1, e.pid, DoneMode(e.how, e.mode), e.lock, e.tranche, e.now);
    }
  }

  lemma FollowHolds(o: Options, l: Ledger, e: Event)
    ensures Follow(o, l, e).held == HeldAfter(o, l.held, e)
  {
  }

  lemma StepKeepsHolds(o: Options, t: Tracker, l: Ledger, e: Event)
    requires HoldsAgree(t, l) && Allowed(l, e)
    ensures HoldsAgree(Step(o, t, e), Follow(o, l, e))
  {
    StepHolds(o, t, e);
    FollowHolds(o, l, e);
  }

  lemma WaitEnds(o: Options, t: Tracker, l: Ledger, pid: int, tranche: int, mode: int, d: int)
    requires TablesAgree(t, l) && tranche != ALL_TRANCHES
    ensures TablesAgree(AppendWait(o, t, pid, tranche, mode, d), RecordWait(o, l, pid, tranche, mode, d))
  {
    AppendTallies(t.waitAll, l.waitAll, ALL_PROCS, tranche, mode, d);
    AppendTallies(t.waitPid, l.waitPid, pid, tranche, mode, d);
  }

  /** The tables after a completed acquire. */
  lemma DoneTables(o: Options, t: Tracker, e: Event)
    requires e.Done?
    ensures var t' := Step(o, t, e);
            var t1 := if Get(t.waitStart, e.pid) == 0 then t
                      else AppendWait(o, t, e.pid, e.tranche, DoneMode(e.how, e.mode), e.now - Get(t.waitStart, e.pid));
            t'.waitAll == t1.waitAll && t'.waitPid == t1.waitPid && t'.heldAll == t.heldAll && t'.heldPid == t.heldPid
  {
  }

  lemma DoneKeepsTables(o: Options, t: Tracker, l: Ledger, e: Event)
    requires Agree(t, l) && e.Done? && Allowed(l, e)
    ensures TablesAgree(Step(o, t, e), Follow(o, l, e))
  {
    var p := PhaseOf(l, e.pid);
    assert PhaseAgrees(t, l, e.pid);
    var mode, d := DoneMode(e.how, e.mode), e.now - Get(t.waitStart, e.pid);
    DoneTables(o, t, e);
    if p.Waiting? {
      WaitEnds(o, t, l, e.pid, e.tranche, mode, d);
    }
  }

  lemma ReleaseKeepsTables(o: Options, t: Tracker, l: Ledger, e: Event)
    requires Agree(t, l) && e.Release? && Allowed(l, e)
    ensures TablesAgree(Step(o, t, e), Follow(o, l, e))
  {
    var k := HoldKey(e.pid, e.lock, e.mode);
    if k in l.held {
      AppendTallies(t.heldAll, l.heldAll, ALL_PROCS, e.tranche, e.mode, e.now - l.held[k]);
      AppendTallies(t.heldPid, l.heldPid, e.pid, e.tranche, e.mode, e.now - l.held[k]);
    }
  }

  lemma EmptyTallies()
    ensures Tallies(map[], [])
  {
  }

  lemma StepAgrees(o: Options, t: Tracker, l: Ledger, e: Event)
    requires Agree(t, l) && Allowed(l, e)
    ensures Agree(Step(o, t, e), Follow(o, l, e))
  {
    StepKeepsHolds(o, t, l, e);
    StepKeepsPhases(o, t, l, e);
    match e
    case Done(_, _, _, _, _, _) => DoneKeepsTables(o, t, l, e);
    case Release(_, _, _, _, _) => ReleaseKeepsTables(o, t, l, e);
    case ProcessEnd(pid) => DropTallies(t.heldPid, l.heldPid, pid);
    case Summary => EmptyTallies();
    case _ =>
  }

  /** Every legal interleaving: no assertion fires, and every array says exactly
      what the ledger says. */
  lemma {:induction false} TrackerAgreesWithLedger(o: Options, trace: seq<Event>)
    requires Legal(o, trace)
    ensures Agree(Run(o, trace), Told(o, trace))
    decreases |trace|
  {
    if trace != [] {
      var before := trace[..|trace| - 1];
      LegalPrefix(o, trace);
      TrackerAgreesWithLedger(o, before);
      StepAgrees(o, Run(o, before), Told(o, before), trace[|trace| - 1]);
    }
  }

  // ----------------------------------------------------------------------- theorems

  lemma AssertionsNeverFire(o: Options, trace: seq<Event>)
    requires Legal(o, trace)
    ensures !Run(o, trace).failed
  {
    TrackerAgreesWithLedger(o, trace);
  }

  /** In every run each entry of the four tables holds the count, the sum, the least
      and the greatest of the durations of the samples behind it. */
  lemma TablesDescribeSamples(o: Options, trace: seq<Event>, k: Key)
    requires Legal(o, trace)
    ensures var t, l := Run(o, trace), Told(o, trace);
            && (k in t.waitAll ==> Describes(t.waitAll[k], l.waitAll, k))
            && (k in t.waitPid ==> Describes(t.waitPid[k], l.waitPid, k))
            && (k in t.heldAll ==> Describes(t.heldAll[k], l.heldAll, k))
            && (k in t.heldPid ==> Describes(t.heldPid[k], l.heldPid, k))
  {
    TrackerAgreesWithLedger(o, trace);
    var t, l := Run(o, trace), Told(o, trace);
    TableDescribes(t.waitAll, l.waitAll, k);
    TableDescribes(t.waitPid, l.waitPid, k);
    TableDescribes(t.heldAll, l.heldAll, k);
    TableDescribes(t.heldPid, l.heldPid, k);
  }

  /** Besides completions and releases only a summary, unless statistics are
      cumulative, and a process exit touch the samples, and only these: those over
      all processes, and the exiting process's own holds. */
  lemma SamplesForgotten(o: Options, l: Ledger, e: Event)
    requires !e.Done? && !e.Release?
    ensures var l' := Follow(o, l, e);
            && l'.waitPid == l.waitPid
            && l'.waitAll == (if e.Summary? && !o.cumulative then [] else l.waitAll)
            && l'.heldAll == (if e.Summary? && !o.cumulative then [] else l.heldAll)
            && (!(e.ProcessEnd? && o.trackPerProcess) ==> l'.heldPid == l.heldPid)
    ensures forall k :: Aggregate(Follow(o, l, e).heldPid, k)
                     == if e.ProcessEnd? && o.trackPerProcess && k.proc == e.pid then None else Aggregate(l.heldPid, k)
  {
    if e.ProcessEnd? {
      forall k { DroppedAggregate(l.heldPid, e.pid, k); }
    }
  }

  /** In every run each (all tranches, mode) entry is the merge of the entries of
      that mode, for all processes and for each one, waits and holds, through
      periodic resets and process exits. */
  lemma TablesRollUp(o: Options, trace: seq<Event>, proc: int, mode: int, ts: seq<int>)
    requires Legal(o, trace) && Distinct(ts) && ALL_TRANCHES !in ts
    requires var t := Run(o, trace);
             var keys := t.waitAll.Keys + t.waitPid.Keys + t.heldAll.Keys + t.heldPid.Keys;
             forall tr :: tr != ALL_TRANCHES && Key(proc, tr, mode) in keys ==> tr in ts
    ensures var t := Run(o, trace);
            forall table :: table in {t.waitAll, t.waitPid, t.heldAll, t.heldPid} ==>
              Entry(table, Key(proc, ALL_TRANCHES, mode)) == MergeEntries(table, proc, mode, ts)
  {
    TrackerAgreesWithLedger(o, trace);
    var t, l := Run(o, trace), Told(o, trace);
    TableRollsUp(t.waitAll, l.waitAll, proc, mode, ts);
    TableRollsUp(t.waitPid, l.waitPid, proc, mode, ts);
    TableRollsUp(t.heldAll, l.heldAll, proc, mode, ts);
    TableRollsUp(t.heldPid, l.heldPid, proc, mode, ts);
  }

  /** An event that leaves a wait of pid for lock going. */
  predicate SleepsOn(e: Event, pid: int, lock: int) {
    e.Summary? || e.pid != pid || e.Release? || (e.WaitStart? && e.lock == lock)
  }

  lemma PhaseStep(o: Options, l: Ledger, e: Event, pid: int)
    requires Allowed(l, e) && PhaseOf(Follow(o, l, e), pid).Waiting?
    ensures var p, p' := PhaseOf(l, pid), PhaseOf(Follow(o, l, e), pid);
            if p.Waiting? then p' == p && SleepsOn(e, pid, p.lock)
            else e == WaitStart(pid, p'.lock, p'.since)
  {
  }

  /** The wait began with event first and has only been slept on since. */
  ghost predicate WaitBegan(o: Options, trace: seq<Event>, pid: int, p: Phase, first: int)
    requires p.Waiting?
  {
    && 0 <= first < |trace|
    && trace[first] == WaitStart(pid, p.lock, p.since)
    && !PhaseOf(Told(o, trace[..first]), pid).Waiting?
    && forall j :: first < j < |trace| ==> SleepsOn(trace[j], pid, p.lock)
  }

  /** A wait in progress dates from the event that began it: before it the process
      was not waiting, and since then it has at most gone back to sleep for the
      same lock, however often it woke. */
  lemma {:induction false} SinceIsFirstSleep(o: Options, trace: seq<Event>, pid: int) returns (first: int)
    requires Legal(o, trace) && PhaseOf(Told(o, trace), pid).Waiting?
    ensures WaitBegan(o, trace, pid, PhaseOf(Told(o, trace), pid), first)
    decreases |trace|
  {
    var before, e := trace[..|trace| - 1], trace[|trace| - 1];
    LegalPrefix(o, trace);
    var l, p := Told(o, before), PhaseOf(Told(o, trace), pid);
    PhaseStep(o, l, e, pid);
    if PhaseOf(l, pid).Waiting? {
      first := SinceIsFirstSleep(o, before, pid);
      WaitExtends(o, trace, pid, p, first);
    } else {
      first := |trace| - 1;
    }
  }

  lemma WaitExtends(o: Options, trace: seq<Event>, pid: int, p: Phase, first: int)
    requires p.Waiting? && trace != []
    requires WaitBegan(o, trace[..|trace| - 1], pid, p, first)
    requires SleepsOn(trace[|trace| - 1], pid, p.lock)
    ensures WaitBegan(o, trace, pid, p, first)
  {
    assert trace[..|trace| - 1][..first] == trace[..first];
  }

  /** The logs l' are l's with one sample more: for all processes, and for the
      process itself if that is tracked. */
  predicate OneMore(o: Options, all: seq<Sample>, pid: seq<Sample>, all': seq<Sample>, pid': seq<Sample>,
                    proc: int, tranche: int, mode: int, d: int) {
    && all' == all + [Sample(Key(ALL_PROCS, tranche, mode), d)]
    && pid' == if o.trackPerProcess then pid + [Sample(Key(proc, tranche, mode), d)] else pid
  }

  lemma DoneRecords(o: Options, l: Ledger, e: Event)
    requires e.Done?
    ensures var l' := Follow(o, l, e);
            if PhaseOf(l, e.pid).Waiting? then
              OneMore(o, l.waitAll, l.waitPid, l'.waitAll, l'.waitPid,
                      e.pid, e.tranche, if e.how.VarDone? then 0 else e.mode, e.now - PhaseOf(l, e.pid).since)
            else l'.waitAll == l.waitAll && l'.waitPid == l.waitPid
  {
  }

  /** A completed acquire adds exactly one wait sample to the log of all processes,
      and to the process's own if those are kept, from the first sleep to the
      completion, or none if the process never slept; a wait for a variable counts as
      exclusive, mode 0.  (The wait tables are the aggregates of these samples, by
      TrackerAgreesWithLedger.) */
  lemma WaitIsRecordedOnce(o: Options, before: seq<Event>, e: Event) returns (first: int)
    requires Legal(o, before) && e.Done? && Allowed(Told(o, before), e)
    ensures var l := Told(o, before);
            var l' := Follow(o, l, e);
            var p := PhaseOf(l, e.pid);
            if p.Waiting? then
              && WaitBegan(o, before, e.pid, p, first)
              && OneMore(o, l.waitAll, l.waitPid, l'.waitAll, l'.waitPid,
                         e.pid, e.tranche, if e.how.VarDone? then 0 else e.mode, e.now - before[first].now)
            else l'.waitAll == l.waitAll && l'.waitPid == l.waitPid
  {
    DoneRecords(o, Told(o, before), e);
    first := 0;
    if PhaseOf(Told(o, before), e.pid).Waiting? {
      first := SinceIsFirstSleep(o, before, e.pid);
    }
  }

  predicate Acquires(e: Event, k: HoldKey) {
    e.Done? && e.how.LockAcquired? && k == HoldKey(e.pid, e.lock, e.mode)
  }

  /** A release of the lock, in whatever mode, or the end of the process. */
  predicate Drops(e: Event, k: HoldKey) {
    (e.Release? && e.pid == k.pid && e.lock == k.lock) || e == ProcessEnd(k.pid)
  }

  /** Event at is the last acquire of that lock in that mode by that process, and
      it has not been dropped since. */
  ghost predicate HeldSince(trace: seq<Event>, k: HoldKey, at: int) {
    && 0 <= at < |trace| && Acquires(trace[at], k)
    && forall j :: at < j < |trace| ==> !Acquires(trace[j], k) && !Drops(trace[j], k)
  }

  lemma HeldSinceStep(trace: seq<Event>, k: HoldKey, at: int)
    requires trace != []
    ensures var before, e := trace[..|trace| - 1], trace[|trace| - 1];
            HeldSince(trace, k, at) <==>
              if Acquires(e, k) then at == |trace| - 1 else !Drops(e, k) && HeldSince(before, k, at)
  {
    var before, e := trace[..|trace| - 1], trace[|trace| - 1];
    assert forall j :: 0 <= j < |before| ==> before[j] == trace[j];
  }

  lemma FollowHold(o: Options, l: Ledger, e: Event, k: HoldKey)
    requires o.trackHolds
    ensures var held := Follow(o, l, e).held;
            if Acquires(e, k) then k in held && held[k] == e.now
            else if Drops(e, k) then k !in held
            else (k in held <==> k in l.held) && (k in held ==> held[k] == l.held[k])
  {
    FollowHolds(o, l, e);
  }

  /** In every trace a lock is held exactly if some acquire of it has not been
      dropped since, and the hold dates from the last one. */
  lemma {:induction false} HoldIsLastAcquire(o: Options, trace: seq<Event>, k: HoldKey)
    requires o.trackHolds
    ensures k in Told(o, trace).held <==> exists at :: HeldSince(trace, k, at)
    ensures forall at :: HeldSince(trace, k, at) ==> k in Told(o, trace).held && Told(o, trace).held[k] == trace[at].now
    decreases |trace|
  {
    if trace != [] {
      var before, e := trace[..|trace| - 1], trace[|trace| - 1];
      HoldIsLastAcquire(o, before, k);
      FollowHold(o, Told(o, before), e, k);
      forall at ensures HeldSince(trace, k, at) <==>
        if Acquires(e, k) then at == |trace| - 1 else !Drops(e, k) && HeldSince(before, k, at)
      {
        HeldSinceStep(trace, k, at);
      }
      if Acquires(e, k) { assert HeldSince(trace, k, |trace| - 1); }
    }
  }

  lemma ReleaseRecords(o: Options, l: Ledger, e: Event)
    requires e.Release? && o.trackHolds
    ensures var l', k := Follow(o, l, e), HoldKey(e.pid, e.lock, e.mode);
            if k in l.held then
              OneMore(o, l.heldAll, l.heldPid, l'.heldAll, l'.heldPid, e.pid, e.tranche, e.mode, e.now - l.held[k])
            else l'.heldAll == l.heldAll && l'.heldPid == l.heldPid
  {
  }

  /** A release adds exactly one hold sample, from the last acquire of that lock in
      that mode to the release, or none if there was no acquire, or the lock was
      released or the process ended after it. */
  lemma HoldIsRecordedOnce(o: Options, before: seq<Event>, e: Event) returns (at: int)
    requires e.Release? && o.trackHolds
    ensures var l, k := Told(o, before), HoldKey(e.pid, e.lock, e.mode);
            var l' := Follow(o, l, e);
            if exists i :: HeldSince(before, k, i) then
              && HeldSince(before, k, at)
              && OneMore(o, l.heldAll, l.heldPid, l'.heldAll, l'.heldPid,
                         e.pid, e.tranche, e.mode, e.now - before[at].now)
            else l'.heldAll == l.heldAll && l'.heldPid == l.heldPid
  {
    var k := HoldKey(e.pid, e.lock, e.mode);
    HoldIsLastAcquire(o, before, k);
    ReleaseRecords(o, Told(o, before), e);
    at := 0;
    if i :| HeldSince(before, k, i) {
      at := i;
    }
  }

  // ---------------------------------------------------------------- one contention

  /** Process p takes a lock at time t; q asks for it, sleeps at u, wakes and sleeps
      again at v; p releases it at w, and q has it at x. */
  function Contention(p: int, q: int, lock: int, tranche: int, t: int, u: int, v: int, w: int, x: int): seq<Event> {
    [AcquireStart(p, "a"), Done(p, LockAcquired, LW_EXCLUSIVE, lock, tranche, t), AcquireEnd(p),
     AcquireStart(q, "a"), WaitStart(q, lock, u), WaitStart(q, lock, v),
     Release(p, LW_EXCLUSIVE, lock, tranche, w), Done(q, LockAcquired, LW_SHARED, lock, tranche, x), AcquireEnd(q)]
  }

  lemma ToldOneMore(o: Options, trace: seq<Event>, n: nat)
    requires n < |trace|
    ensures Told(o, trace[..n + 1]) == Follow(o, Told(o, trace[..n]), trace[n])
  {
    assert trace[..n + 1][..n] == trace[..n];
  }

  /** The ledger after the first n events. */
  function ContentionLedger(o: Options, p: int, q: int, lock: int, tranche: int, t: int, u: int, w: int, n: nat)
    : Ledger
  {
    var none: map<HoldKey, int> := map[];
    var held := if o.trackHolds then map[HoldKey(p, lock, LW_EXCLUSIVE) := t] else none;
    if n == 0 then EMPTY
    else if n == 1 then EMPTY.(phase := map[p := Inside])
    else if n <= 3 then EMPTY.(phase := map[p := Outside], held := held)
    else if n == 4 then EMPTY.(phase := map[p := Outside, q := Inside], held := held)
    else if n <= 6 then EMPTY.(phase := map[p := Outside, q := Waiting(lock, u)], held := held)
    else
      var l := EMPTY.(phase := map[p := Outside, q := Waiting(lock, u)]);
      if o.trackHolds then RecordHold(o, l, p, tranche, LW_EXCLUSIVE, w - t) else l
  }

  lemma ContentionStep(o: Options, p: int, q: int, lock: int, tranche: int,
                       t: int, u: int, v: int, w: int, x: int, n: nat)
    requires p != q && tranche != ALL_TRANCHES && 0 < t && 0 < u && 0 < v && 0 < w && 0 < x && n < 7
    ensures var e := Contention(p, q, lock, tranche, t, u, v, w, x)[n];
            && Allowed(ContentionLedger(o, p, q, lock, tranche, t, u, w, n), e)
            && Follow(o, ContentionLedger(o, p, q, lock, tranche, t, u, w, n), e)
               == ContentionLedger(o, p, q, lock, tranche, t, u, w, n + 1)
  {
    assert DropLock(map[HoldKey(p, lock, LW_EXCLUSIVE) := t], p, lock) == map[];
  }

  lemma {:induction false} ContentionTold(o: Options, p: int, q: int, lock: int, tranche: int,
                                          t: int, u: int, v: int, w: int, x: int, n: nat)
    requires p != q && tranche != ALL_TRANCHES && 0 < t && 0 < u && 0 < v && 0 < w && 0 < x && n <= 7
    ensures Told(o, Contention(p, q, lock, tranche, t, u, v, w, x)[..n])
         == ContentionLedger(o, p, q, lock, tranche, t, u, w, n)
    decreases n
  {
    if n > 0 {
      ContentionTold(o, p, q, lock, tranche, t, u, v, w, x, n - 1);
      ContentionStep(o, p, q, lock, tranche, t, u, v, w, x, n - 1);
      ToldOneMore(o, Contention(p, q, lock, tranche, t, u, v, w, x), n - 1);
    }
  }

  lemma ContentionEnds(o: Options, l: Ledger, q: int, lock: int, tranche: int, u: int, x: int)
    requires PhaseOf(l, q) == Waiting(lock, u) && tranche != ALL_TRANCHES && 0 < x
    ensures var e := Done(q, LockAcquired, LW_SHARED, lock, tranche, x);
            var l' := Follow(o, l, e);
            && Allowed(l, e) && Allowed(l', AcquireEnd(q)) && Follow(o, l', AcquireEnd(q)) == l'
            && l'.waitAll == l.waitAll + [Sample(Key(ALL_PROCS, tranche, LW_SHARED), x - u)]
            && l'.heldAll == l.heldAll
  {
  }

  /** Such traces are legal, and one leaves a hold of p from t to w and a wait of q
      from u to x. */
  lemma ContentionIsRecorded(o: Options, p: int, q: int, lock: int, tranche: int,
                             t: int, u: int, v: int, w: int, x: int)
    requires p != q && tranche != ALL_TRANCHES && 0 < t && 0 < u && 0 < v && 0 < w && 0 < x
    ensures var trace := Contention(p, q, lock, tranche, t, u, v, w, x);
            && Legal(o, trace)
            && Told(o, trace).waitAll == [Sample(Key(ALL_PROCS, tranche, LW_SHARED), x - u)]
            && Told(o, trace).heldAll
                 == if o.trackHolds then [Sample(Key(ALL_PROCS, tranche, LW_EXCLUSIVE), w - t)] else []
  {
    var trace := Contention(p, q, lock, tranche, t, u, v, w, x);
    ContentionTold(o, p, q, lock, tranche, t, u, v, w, x, 7);
    ToldOneMore(o, trace, 7);
    ToldOneMore(o, trace, 8);
    assert trace[..9] == trace;
    var l := ContentionLedger(o, p, q, lock, tranche, t, u, w, 7);
    ContentionEnds(o, l, q, lock, tranche, u, x);
    forall i | 0 <= i < |trace| ensures Allowed(Told(o, trace[..i]), trace[i]) {
      if i < 7 {
        ContentionTold(o, p, q, lock, tranche, t, u, v, w, x, i);
        ContentionStep(o, p, q, lock, tranche, t, u, v, w, x, i);
      }
    }
  }

  // ------------------------------------------------------------- what an exit forgets

  predicate NoWaitState(t: Tracker, pid: int) {
    pid !in t.waitStart && pid !in t.waitLock && pid !in t.acquireFunc
  }

  /** No array but the wait statistics mentions the process. */
  ghost predicate Forgotten(t: Tracker, pid: int) {
    && NoWaitState(t, pid)
    && (forall k :: k in t.held ==> k.pid != pid)
    && (forall k :: k in t.heldPid ==> k.proc != pid)
  }

  /** Arrays whose option is off stay empty. */
  lemma {:induction false} UntrackedStayEmpty(o: Options, trace: seq<Event>)
    ensures !o.trackHolds ==> Run(o, trace).held == map[]
    ensures !(o.trackHolds && o.trackPerProcess) ==> Run(o, trace).heldPid == map[]
    decreases |trace|
  {
    if trace != [] {
      var before, e := trace[..|trace| - 1], trace[|trace| - 1];
      UntrackedStayEmpty(o, before);
      StepHolds(o, Run(o, before), e);
      StepHeldStats(o, Run(o, before), e);
    }
  }

  /** What a release leaves alone, and what it does to the hold statistics. */
  lemma ReleaseEffect(o: Options, t: Tracker, e: Event)
    requires e.Release?
    ensures var t' := Step(o, t, e);
            && t'.waitStart == t.waitStart && t'.waitLock == t.waitLock && t'.acquireFunc == t.acquireFunc
            && t'.waitPid == t.waitPid
            && t'.heldPid
                 == if o.trackHolds && o.trackPerProcess && Get(t.held, HoldKey(e.pid, e.lock, e.mode)) != 0
                    then Append(t.heldPid, e.pid, e.tranche, e.mode,
                                e.now - Get(t.held, HoldKey(e.pid, e.lock, e.mode)))
                    else t.heldPid
  {
    var t' := OnRelease(o, t, e.pid, e.mode, e.lock, e.tranche, e.now);
    if o.trackHolds {
      assert t'.waitStart == t.waitStart;
    }
  }

  /** How an event changes the per-process hold statistics. */
  lemma StepHeldStats(o: Options, t: Tracker, e: Event)
    ensures Step(o, t, e).heldPid
         == if e.ProcessEnd? && o.trackPerProcess then DropProc(t.heldPid, e.pid)
            else if e.Release? && o.trackHolds && o.trackPerProcess && Get(t.held, HoldKey(e.pid, e.lock, e.mode)) != 0
            then Append(t.heldPid, e.pid, e.tranche, e.mode, e.now - Get(t.held, HoldKey(e.pid, e.lock, e.mode)))
            else t.heldPid
  {
    match e
    case Done(_, _, _, _, _, _) => DoneTables(o, t, e);
    case Release(_, _, _, _, _) => ReleaseEffect(o, t, e);
    case _ =>
  }

  /** Only the event's own process can enter the wait state. */
  lemma StepWaitState(o: Options, t: Tracker, e: Event, pid: int)
    requires NoWaitState(t, pid) && (e.Summary? || e.pid != pid)
    ensures NoWaitState(Step(o, t, e), pid)
  {
    match e
    case Done(_, _, _, _, _, _) => DoneWaitState(o, t, e);
    case Release(_, _, _, _, _) => ReleaseEffect(o, t, e);
    case WaitStart(p, lock, now) => WaitStartState(t, p, lock, now, pid);
    case _ =>
  }

  lemma WaitStartState(t: Tracker, p: int, lock: int, now: int, pid: int)
    requires NoWaitState(t, pid) && p != pid
    ensures NoWaitState(OnWaitStart(t, p, lock, now), pid)
  {
  }

  lemma DoneWaitState(o: Options, t: Tracker, e: Event)
    requires e.Done?
    ensures var t' := Step(o, t, e);
            && t'.waitStart == t.waitStart - {e.pid} && t'.waitLock == t.waitLock - {e.pid}
            && t'.acquireFunc == t.acquireFunc - {e.pid}
  {
  }

  lemma AppendKeys(table: Table, proc: int, tranche: int, mode: int, d: int)
    ensures Append(table, proc, tranche, mode, d).Keys
         == table.Keys + {Key(proc, tranche, mode), Key(proc, ALL_TRANCHES, mode)}
  {
  }

  lemma OthersLeaveForgotten(o: Options, t: Tracker, e: Event, pid: int)
    requires Forgotten(t, pid) && (e.Summary? || e.pid != pid)
    ensures Forgotten(Step(o, t, e), pid)
  {
    StepWaitState(o, t, e, pid);
    StepHolds(o, t, e);
    StepHeldStats(o, t, e);
    if e.Release? {
      AppendKeys(t.heldPid, e.pid, e.tranche, e.mode, e.now - Get(t.held, HoldKey(e.pid, e.lock, e.mode)));
    }
  }

  /** After a process has ended, and whatever the others do, nothing but its wait
      statistics is left of it until an event of that process number occurs again. */
  lemma {:induction false} ExitedProcessIsForgotten(o: Options, before: seq<Event>, pid: int, after: seq<Event>)
    requires forall i :: 0 <= i < |after| ==> after[i].Summary? || after[i].pid != pid
    ensures Forgotten(Run(o, before + [ProcessEnd(pid)] + after), pid)
    decreases |after|
  {
    var all := before + [ProcessEnd(pid)] + after;
    if after == [] {
      assert all[..|all| - 1] == before;
      UntrackedStayEmpty(o, before);
    } else {
      var most := after[..|after| - 1];
      ExitedProcessIsForgotten(o, before, pid, most);
      assert all[..|all| - 1] == before + [ProcessEnd(pid)] + most;
      OthersLeaveForgotten(o, Run(o, before + [ProcessEnd(pid)] + most), after[|after| - 1], pid);
    }
  }

  lemma AppendKeepsEntry(table: Table, proc: int, tranche: int, mode: int, d: int, k: Key)
    requires k in table
    ensures var table' := Append(table, proc, tranche, mode, d);
            k in table' && table'[k].count >= table[k].count
  {
  }

  lemma StepKeepsWaitStats(o: Options, t: Tracker, e: Event, k: Key)
    requires k in t.waitPid
    ensures k in Step(o, t, e).waitPid && Step(o, t, e).waitPid[k].count >= t.waitPid[k].count
  {
    match e
    case Done(_, _, _, _, _, _) =>
      DoneTables(o, t, e);
      AppendKeepsEntry(t.waitPid, e.pid, e.tranche, DoneMode(e.how, e.mode), e.now - Get(t.waitStart, e.pid), k);
    case Release(_, _, _, _, _) => ReleaseEffect(o, t, e);
    case _ =>
  }

  /** The wait statistics of a process outlive it: no event ever removes such an
      entry, so a later process with the same number adds to it. */
  lemma {:induction false} WaitStatsOutliveProcess(o: Options, before: seq<Event>, after: seq<Event>, k: Key)
    requires k in Run(o, before).waitPid
    ensures k in Run(o, before + after).waitPid
    ensures Run(o, before + after).waitPid[k].count >= Run(o, before).waitPid[k].count
    decreases |after|
  {
    if after == [] {
      assert before + after == before;
    } else {
      var most := after[..|after| - 1];
      WaitStatsOutliveProcess(o, before, most, k);
      assert (before + after)[..|before + after| - 1] == before + most;
      StepKeepsWaitStats(o, Run(o, before + most), after[|after| - 1], k);
    }
  }

  // ----------------------------------------------------------- the arrays in place

  /** An acquire that succeeds is a hold remembered, then a completion. */
  function WithHold(o: Options, l: Ledger, pid: int, mode: int, lock: int, now: int): Ledger {
    if o.trackHolds then l.(held := l.held[HoldKey(pid, lock, mode) := now]) else l
  }

  lemma DoneInTwo(o: Options, l: Ledger, e: Event)
    requires e.Done?
    ensures var l1 := if e.how.LockAcquired? then WithHold(o, l, e.pid, e.mode, e.lock, e.now) else l;
            Follow(o, l, e)
            == Follow(o, l1, Done(e.pid, LockFailed, DoneMode(e.how, e.mode), e.lock, e.tranche, e.now))
  {
  }

  lemma HoldAgrees(o: Options, t: Tracker, l: Ledger, pid: int, mode: int, lock: int, now: int)
    requires Agree(t, l) && ValidMode(mode) && now > 0
    ensures Agree(RememberHold(o, t, pid, mode, lock, now), WithHold(o, l, pid, mode, lock, now))
  {
    var t', l' := RememberHold(o, t, pid, mode, lock, now), WithHold(o, l, pid, mode, lock, now);
    forall p ensures PhaseAgrees(t', l', p) {
      assert PhaseAgrees(t, l, p);
    }
  }

  lemma EndsAgreeing(o: Options, t: Tracker, l: Ledger, e: Event, t': Tracker)
    requires Agree(t, l) && Allowed(l, e) && t' == Step(o, t, e)
    ensures Agree(t', Follow(o, l, e))
  {
    StepAgrees(o, t, l, e);
  }

  /** The script's private globals and the probes that update them.  Each probe is
      handed, as a ghost, the ledger its arrays agree with, asserts what the script
      asserts, and leaves them in agreement with the ledger one event further. */
  class Arrays {
    const o: Options
    var waitStart: map<int, int>
    var waitLock: map<int, int>
    var acquireFunc: map<int, string>
    var held: map<HoldKey, int>
    var waitAll: Table
    var waitPid: Table
    var heldAll: Table
    var heldPid: Table

    ghost function State(): Tracker
      reads this
    {
      Tracker(waitStart, waitLock, acquireFunc, held, waitAll, waitPid, heldAll, heldPid, false)
    }

    constructor (o: Options)
      ensures this.o == o && State() == INIT && Agree(State(), EMPTY)
    {
      this.o := o;
      waitStart, waitLock, acquireFunc, held := map[], map[], map[], map[];
      waitAll, waitPid, heldAll, heldPid := map[], map[], map[], map[];
      new;
      EmptyTallies();
    }

    method LWLockAcquireStart(pid: int, func: string, ghost l: Ledger)
      requires Agree(State(), l) && Allowed(l, AcquireStart(pid, func))
      modifies this`acquireFunc
      ensures State() == OnAcquireStart(old(State()), pid, func)
      ensures acquireFunc == old(acquireFunc)[pid := func]
      ensures Agree(State(), Follow(o, l, AcquireStart(pid, func)))
    {
      assert PhaseAgrees(State(), l, pid);
      StepAgrees(o, State(), l, AcquireStart(pid, func));
      assert pid !in acquireFunc;
      assert pid !in waitStart;
      assert pid !in waitLock;
      acquireFunc := acquireFunc[pid := func];
    }

    method LWLockAcquireEnd(pid: int, ghost l: Ledger)
      requires Agree(State(), l) && Allowed(l, AcquireEnd(pid))
    {
      assert PhaseAgrees(State(), l, pid);
      assert pid !in acquireFunc;
    }

    method LWLockWaitStart(pid: int, lock: int, now: int, ghost l: Ledger)
      requires Agree(State(), l) && Allowed(l, WaitStart(pid, lock, now))
      modifies this`waitStart, this`waitLock
      ensures State() == OnWaitStart(old(State()), pid, lock, now)
      ensures Agree(State(), Follow(o, l, WaitStart(pid, lock, now)))
    {
      assert PhaseAgrees(State(), l, pid);
      StepAgrees(o, State(), l, WaitStart(pid, lock, now));
      if pid !in waitStart {
        waitStart := waitStart[pid := now];
        waitLock := waitLock[pid := lock];
      } else {
        assert Get(waitLock, pid) == lock;
      }
    }

    method AppendWaitStats(pid: int, tranche: int, mode: int, waited: int)
      modifies this`waitAll, this`waitPid
      ensures State() == AppendWait(o, old(State()), pid, tranche, mode, waited)
    {
      waitAll := Append(waitAll, ALL_PROCS, tranche, mode, waited);
      if o.trackPerProcess {
        waitPid := Append(waitPid, pid, tranche, mode, waited);
      }
    }

    method AppendHeldStats(pid: int, tranche: int, mode: int, duration: int)
      modifies this`heldAll, this`heldPid
      ensures State() == AppendHeld(o, old(State()), pid, tranche, mode, duration)
    {
      heldAll := Append(heldAll, ALL_PROCS, tranche, mode, duration);
      if o.trackPerProcess {
        heldPid := Append(heldPid, pid, tranche, mode, duration);
      }
    }

    method LWLockAcquired(pid: int, mode: int, lock: int, now: int, ghost l: Ledger)
      requires Agree(State(), l) && ValidMode(mode) && now > 0
      modifies this`held
      ensures State() == RememberHold(o, old(State()), pid, mode, lock, now)
      ensures Agree(State(), WithHold(o, l, pid, mode, lock, now))
    {
      HoldAgrees(o, State(), l, pid, mode, lock, now);
      if o.trackHolds {
        assert mode == LW_EXCLUSIVE || mode == LW_SHARED;
        held := held[HoldKey(pid, lock, mode) := now];
      }
    }

    /** The probe shared by all completions; a failed one stands for the wait part
        of any. */
    method DoneWaiting(pid: int, mode: int, lock: int, tranche: int, now: int, ghost l: Ledger)
      requires Agree(State(), l) && Allowed(l, Done(pid, LockFailed, mode, lock, tranche, now))
      modifies this
      ensures State() == OnDone(o, old(State()), pid, mode, lock, tranche, now)
      ensures Agree(State(), Follow(o, l, Done(pid, LockFailed, mode, lock, tranche, now)))
    {
      assert PhaseAgrees(State(), l, pid);
      ghost var t := State();
      var waitStartUs := Get(waitStart, pid);
      if waitStartUs != 0 {
        assert Get(waitLock, pid) == lock;
        AppendWaitStats(pid, tranche, mode, now - waitStartUs);
      }
      assert State() == if waitStartUs == 0 then t else AppendWait(o, t, pid, tranche, mode, now - waitStartUs);
      waitStart := waitStart - {pid};
      acquireFunc := acquireFunc - {pid};
      waitLock := waitLock - {pid};
      EndsAgreeing(o, t, l, Done(pid, LockFailed, mode, lock, tranche, now), State());
    }

    /** All that a completed acquire, try or wait triggers. */
    method LWLockDone(pid: int, how: Completion, mode: int, lock: int, tranche: int, now: int, ghost l: Ledger)
      requires Agree(State(), l) && Allowed(l, Done(pid, how, mode, lock, tranche, now))
      modifies this
      ensures State() == Step(o, old(State()), Done(pid, how, mode, lock, tranche, now))
      ensures Agree(State(), Follow(o, l, Done(pid, how, mode, lock, tranche, now)))
    {
      DoneInTwo(o, l, Done(pid, how, mode, lock, tranche, now));
      ghost var l1 := l;
      if how.LockAcquired? {
        LWLockAcquired(pid, mode, lock, now, l);
        l1 := WithHold(o, l, pid, mode, lock, now);
      }
      DoneWaiting(pid, DoneMode(how, mode), lock, tranche, now, l1);
    }

    /** The body of the release probe. */
    method EndHold(pid: int, mode: int, lock: int, tranche: int, now: int)
      requires ValidMode(mode)
      modifies this`heldAll, this`heldPid, this`held
      ensures o.trackHolds ==> State() == OnRelease(o, old(State()), pid, mode, lock, tranche, now)
    {
      assert mode == LW_EXCLUSIVE || mode == LW_SHARED;
      var acquiredUs := Get(held, HoldKey(pid, lock, mode));
      if acquiredUs != 0 {
        AppendHeldStats(pid, tranche, mode, now - acquiredUs);
      }
      held := DropLock(held, pid, lock);
    }

    method LWLockRelease(pid: int, mode: int, lock: int, tranche: int, now: int, ghost l: Ledger)
      requires Agree(State(), l) && Allowed(l, Release(pid, mode, lock, tranche, now))
      modifies this`heldAll, this`heldPid, this`held
      ensures State() == OnRelease(o, old(State()), pid, mode, lock, tranche, now)
      ensures Agree(State(), Follow(o, l, Release(pid, mode, lock, tranche, now)))
    {
      ghost var t := State();
      if o.trackHolds {
        EndHold(pid, mode, lock, tranche, now);
      }
      EndsAgreeing(o, t, l, Release(pid, mode, lock, tranche, now), State());
    }

    method PrintStats(ghost l: Ledger)
      requires Agree(State(), l)
      modifies this`heldAll, this`waitAll
      ensures State() == OnSummary(o, old(State()))
      ensures waitAll == (if o.cumulative then old(waitAll) else map[])
      ensures heldAll == (if o.cumulative then old(heldAll) else map[])
      ensures Agree(State(), Follow(o, l, Summary))
    {
      StepAgrees(o, State(), l, Summary);
      if !o.cumulative {
        heldAll := map[];
        waitAll := map[];
      }
    }

    /** delete_per_pid_entries */
    method DeletePerPidEntries(pid: int)
      modifies this`waitStart, this`waitLock, this`acquireFunc, this`held
      ensures waitStart == old(waitStart) - {pid} && waitLock == old(waitLock) - {pid}
      ensures acquireFunc == old(acquireFunc) - {pid}
      ensures held == if o.trackHolds then DropHolder(old(held), pid) else old(held)
    {
      if o.trackHolds {
        held := DropHolder(held, pid);
      }
      waitStart := waitStart - {pid};
      acquireFunc := acquireFunc - {pid};
      waitLock := waitLock - {pid};
    }

    method PostgresEnd(pid: int, ghost l: Ledger)
      requires Agree(State(), l)
      modifies this
      ensures State() == OnProcessEnd(o, old(State()), pid)
      ensures forall k :: k in heldPid <==> k in old(heldPid) && (o.trackPerProcess ==> k.proc != pid)
      ensures forall k :: k in heldPid ==> heldPid[k] == old(heldPid[k])
      ensures waitPid == old(waitPid) && waitAll == old(waitAll) && heldAll == old(heldAll)
      ensures Agree(State(), Follow(o, l, ProcessEnd(pid)))
    {
      ghost var t := State();
      if o.trackPerProcess {
        heldPid := DropProc(heldPid, pid);
      }
      DeletePerPidEntries(pid);
      EndsAgreeing(o, t, l, ProcessEnd(pid), State());
    }

    /** Any legal stretch of events: no assertion of a probe ever fires, and the
        arrays end in agreement with the ledger. */
    method Trace(events: seq<Event>)
      requires State() == INIT && Legal(o, events)
      modifies this
      ensures State() == Run(o, events)
      ensures Agree(State(), Told(o, events))
    {
      EmptyTallies();
      for i := 0 to |events|
        invariant State() == Run(o, events[..i])
        invariant Agree(State(), Told(o, events[..i]))
      {
        assert events[..i + 1][..i] == events[..i];
        HandleEvent(events[i], Told(o, events[..i]));
      }
      assert events[..|events|] == events;
    }

    method HandleEvent(e: Event, ghost l: Ledger)
      requires Agree(State(), l) && Allowed(l, e)
      modifies this
      ensures State() == Step(o, old(State()), e)
      ensures Agree(State(), Follow(o, l, e))
    {
      StepAgrees(o, State(), l, e);
      match e {
        case AcquireStart(pid, func) => LWLockAcquireStart(pid, func, l);
        case WaitStart(pid, lock, now) => LWLockWaitStart(pid, lock, now, l);
        case Done(pid, how, mode, lock, tranche, now) => LWLockDone(pid, how, mode, lock, tranche, now, l);
        case AcquireEnd(pid) => LWLockAcquireEnd(pid, l);
        case Release(pid, mode, lock, tranche, now) => LWLockRelease(pid, mode, lock, tranche, now, l);
        case Summary => PrintStats(l);
        case ProcessEnd(pid) => PostgresEnd(pid, l);
      }
    }
  }
}
