/** A file system that can crash, and atomic_overwrite on it.  What is not yet
    synced may or may not survive a crash, name by name and file by file. */
module CrashFS {
  import opened Wrappers

  /** The destination, its temporary file, and every other name in the directory. */
  datatype Name = Dest | Tmp | Other(name: string)

  /** A YAML document dumped from a map, or any other bytes. */
  datatype Content = Doc(entries: map<string, string>) | Raw(text: string)

  /** dir and data are what programs see.  older holds, for a name changed since
      the last directory sync, the entries it had before and may fall back to;
      synced are the inodes whose data is on disk. */
  datatype FS = FS(dir: map<Name, nat>, older: map<Name, set<Option<nat>>>,
                   data: map<nat, Content>, synced: set<nat>, next: nat)

  function Lookup(fs: FS, n: Name): Option<nat> {
    if n in fs.dir then Some(fs.dir[n]) else None
  }

  /** The entries a name may have after a crash. */
  function Entries(fs: FS, n: Name): set<Option<nat>> {
    {Lookup(fs, n)} + if n in fs.older then fs.older[n] else {}
  }

  function ContentOf(fs: FS, e: Option<nat>): Option<Content> {
    if e.Some? && e.value in fs.data then Some(fs.data[e.value]) else None
  }

  function Read(fs: FS, n: Name): Option<Content> {
    ContentOf(fs, Lookup(fs, n))
  }

  ghost predicate Wf(fs: FS) {
    && (forall n, e :: e in Entries(fs, n) && e.Some? ==> e.value in fs.data)
    && (forall i :: i in fs.data ==> i < fs.next)
  }

  /** A directory without files. */
  const NO_FILES := FS(map[], map[], map[], {}, 0)

  /** The states the disk may be found in after a crash: each name with one of its
      possible entries, synced data intact, other data anything at all. */
  ghost predicate CanCrashTo(fs: FS, fs': FS) {
    && Wf(fs')
    && fs'.older == map[] && fs.next <= fs'.next
    && fs'.synced == fs'.data.Keys
    && (forall n :: Lookup(fs', n) in Entries(fs, n))
    && (forall i :: i in fs.synced && i in fs.data ==> i in fs'.data && fs'.data[i] == fs.data[i])
  }

  // ------------------------------------------------------------------- operations

  function SetEntry(fs: FS, n: Name, e: Option<nat>): FS {
    fs.(older := fs.older[n := Entries(fs, n)],
        dir := if e.Some? then fs.dir[n := e.value] else fs.dir - {n})
  }

  function Unlink(fs: FS, n: Name): FS {
    if n in fs.dir then SetEntry(fs, n, None) else fs
  }

  function Create(fs: FS, n: Name): FS {
    SetEntry(fs.(data := fs.data[fs.next := Raw("")], synced := fs.synced - {fs.next}, next := fs.next + 1),
             n, Some(fs.next))
  }

  function Write(fs: FS, i: nat, c: Content): FS {
    fs.(data := fs.data[i := c], synced := fs.synced - {i})
  }

  function SyncFile(fs: FS, i: nat): FS {
    fs.(synced := fs.synced + {i})
  }

  function SyncDir(fs: FS): FS {
    fs.(older := map[])
  }

  function Rename(fs: FS, from: Name, to: Name): FS
    requires from in fs.dir
  {
    SetEntry(SetEntry(fs, to, Lookup(fs, from)), from, None)
  }

  // ------------------------------------------------------------- atomic_overwrite

  datatype Op = RemoveStale | CreateTmp | WriteTmp | SyncTmp | SyncDirectory | RenameTmp

  const PROGRAM := [RemoveStale, CreateTmp, WriteTmp, SyncTmp, SyncDirectory, RenameTmp, SyncDirectory]

  /** The number of the step that raises an exception (none if past the end), what
      a failing write leaves behind, and whether the final unlink fails too. */
  datatype Plan = Plan(failAt: nat, partial: Content, cleanupFails: bool)

  /** O_EXCL refuses an existing file; the other steps need theirs. */
  predicate Enabled(fs: FS, op: Op) {
    match op
    case RemoveStale => true
    case CreateTmp => Tmp !in fs.dir
    case SyncDirectory => true
    case _ => Tmp in fs.dir
  }

  function Apply(fs: FS, op: Op, content: Content): FS
    requires Enabled(fs, op)
  {
    match op
    case RemoveStale => Unlink(fs, Tmp)
    case CreateTmp => Create(fs, Tmp)
    case WriteTmp => Write(fs, fs.dir[Tmp], content)
    case SyncTmp => SyncFile(fs, fs.dir[Tmp])
    case SyncDirectory => SyncDir(fs)
    case RenameTmp => Rename(fs, Tmp, Dest)
  }

  /** A step that raises does nothing, but a write may have got part of the way. */
  function FailedApply(fs: FS, op: Op, plan: Plan): FS {
    if op.WriteTmp? && Tmp in fs.dir then Write(fs, fs.dir[Tmp], plan.partial) else fs
  }

  /** All states from step pc to the end of the program or to the exception. */
  function Steps(fs: FS, content: Content, plan: Plan, pc: nat): (r: seq<FS>)
    requires pc <= |PROGRAM|
    ensures r != [] && r[0] == fs
    decreases |PROGRAM| - pc, plan
  {
    if pc == |PROGRAM| then [fs]
    else if pc == plan.failAt || !Enabled(fs, PROGRAM[pc]) then [fs, FailedApply(fs, PROGRAM[pc], plan)]
    else [fs] + Steps(Apply(fs, PROGRAM[pc], content), content, plan, pc + 1)
  }

  /** The program got to its end without an exception. */
  predicate Returns(fs: FS, content: Content, plan: Plan, pc: nat)
    requires pc <= |PROGRAM|
    decreases |PROGRAM| - pc, plan
  {
    pc == |PROGRAM| ||
    (pc != plan.failAt && Enabled(fs, PROGRAM[pc])
      && Returns(Apply(fs, PROGRAM[pc], content), content, plan, pc + 1))
  }

  /** The finally clause; removing a stale file happens before the try. */
  function Cleanup(fs: FS, plan: Plan): FS {
    if plan.failAt == 0 || plan.cleanupFails then fs else Unlink(fs, Tmp)
  }

  /** Every state atomic_overwrite goes through, first to last. */
  function Overwrite(fs: FS, content: Content, plan: Plan): (r: seq<FS>)
    ensures r != []
  {
    var body := Steps(fs, content, plan, 0);
    body + [Cleanup(body[|body| - 1], plan)]
  }

  function Last<T>(s: seq<T>): T
    requires s != []
  {
    s[|s| - 1]
  }

  // -------------------------------------------------------------------- invariant

  /** Whatever happens, the destination shows one of the contents in c: every
      entry it may have leads to synced data in c (None: no file). */
  ghost predicate Shows(fs: FS, c: set<Option<Content>>) {
    forall e :: e in Entries(fs, Dest) ==>
      ContentOf(fs, e) in c && (e.Some? ==> e.value in fs.synced && e.value in fs.data)
  }

  lemma CrashShows(fs: FS, c: set<Option<Content>>, fs': FS)
    requires Shows(fs, c) && CanCrashTo(fs, fs')
    ensures Read(fs', Dest) in c && Shows(fs', {Read(fs', Dest)})
  {
    var e := Lookup(fs', Dest);
    assert ContentOf(fs', e) == ContentOf(fs, e);
    assert Entries(fs', Dest) == {e};
  }

  /** What holds before step pc, for a destination that shows c. */
  ghost predicate Stage(fs: FS, c: set<Option<Content>>, content: Content, pc: nat) {
    && Wf(fs)
    && (pc <= 5 ==> Shows(fs, c))
    && (pc == 1 ==> Tmp !in fs.dir)
    && (2 <= pc <= 5 ==> Tmp in fs.dir && Some(fs.dir[Tmp]) !in Entries(fs, Dest))
    && (3 <= pc <= 5 ==> Read(fs, Tmp) == Some(content))
    && (4 <= pc <= 5 ==> fs.dir[Tmp] in fs.synced)
    && (pc == 6 ==> Shows(fs, c + {Some(content)}))
    && (pc >= 6 ==> Read(fs, Dest) == Some(content) && fs.dir[Dest] in fs.synced && Tmp !in fs.dir)
    && (pc == 7 ==> Shows(fs, {Some(content)}))
  }

  lemma SetEntryEntries(fs: FS, n: Name, e: Option<nat>)
    ensures forall m :: Entries(SetEntry(fs, n, e), m) == if m == n then Entries(fs, n) + {e} else Entries(fs, m)
  {
    var fs' := SetEntry(fs, n, e);
    forall m ensures Entries(fs', m) == if m == n then Entries(fs, n) + {e} else Entries(fs, m) {
      assert Lookup(fs', m) == if m == n then e else Lookup(fs, m);
    }
  }

  lemma CreateAdvances(fs: FS, c: set<Option<Content>>, content: Content)
    requires Stage(fs, c, content, 1)
    ensures Stage(Create(fs, Tmp), c, content, 2)
  {
    var fs0 := fs.(data := fs.data[fs.next := Raw("")], synced := fs.synced - {fs.next}, next := fs.next + 1);
    SetEntryEntries(fs0, Tmp, Some(fs.next));
    assert forall n :: Entries(fs0, n) == Entries(fs, n);
  }

  lemma RenameAdvances(fs: FS, c: set<Option<Content>>, content: Content)
    requires Stage(fs, c, content, 5)
    ensures Stage(Rename(fs, Tmp, Dest), c, content, 6)
  {
    var e := Lookup(fs, Tmp);
    var mid := SetEntry(fs, Dest, e);
    SetEntryEntries(fs, Dest, e);
    SetEntryEntries(mid, Tmp, None);
    assert e in Entries(fs, Tmp);
  }

  lemma DataAdvances(fs: FS, c: set<Option<Content>>, content: Content, pc: nat)
    requires 2 <= pc <= 3 && Stage(fs, c, content, pc)
    ensures Stage(Apply(fs, PROGRAM[pc], content), c, content, pc + 1)
  {
    var fs' := Apply(fs, PROGRAM[pc], content);
    assert Lookup(fs, Tmp) in Entries(fs, Tmp);
    assert forall n :: Entries(fs', n) == Entries(fs, n);
  }

  lemma StageAdvances(fs: FS, c: set<Option<Content>>, content: Content, pc: nat)
    requires pc < |PROGRAM| && Stage(fs, c, content, pc)
    ensures Enabled(fs, PROGRAM[pc]) && Stage(Apply(fs, PROGRAM[pc], content), c, content, pc + 1)
  {
    if pc == 0 { UnlinkTmpKeeps(fs, c); }
    else if pc == 1 { CreateAdvances(fs, c, content); }
    else if pc <= 3 { DataAdvances(fs, c, content, pc); }
    else if pc == 5 { RenameAdvances(fs, c, content); }
    else { SyncDirKeeps(fs, c); }
  }

  lemma UnlinkTmpKeeps(fs: FS, c: set<Option<Content>>)
    requires Wf(fs)
    ensures var fs' := Unlink(fs, Tmp);
            Wf(fs') && (Shows(fs, c) ==> Shows(fs', c)) && Tmp !in fs'.dir && Read(fs', Dest) == Read(fs, Dest)
  {
    SetEntryEntries(fs, Tmp, None);
  }

  lemma SyncDirKeeps(fs: FS, c: set<Option<Content>>)
    requires Wf(fs)
    ensures Wf(SyncDir(fs)) && (Shows(fs, c) ==> Shows(SyncDir(fs), c))
    ensures forall n :: Entries(SyncDir(fs), n) == {Lookup(fs, n)}
  {
    assert forall n :: Entries(SyncDir(fs), n) == {Lookup(fs, n)} && Lookup(fs, n) in Entries(fs, n);
  }

  /** Whatever a crash can uncover, at any moment: an old content or the new one. */
  ghost predicate Safe(fs: FS, c: set<Option<Content>>, content: Content) {
    Wf(fs) && Shows(fs, c + {Some(content)})
  }

  /** How the destination stands once the program has stopped: a normal end makes
      the new content the only possible one; an exception before the rename
      changes nothing. */
  ghost predicate Stopped(fs: FS, c: set<Option<Content>>, content: Content, plan: Plan) {
    && Safe(fs, c, content)
    && (plan.failAt >= |PROGRAM| ==> Shows(fs, {Some(content)}) && Read(fs, Dest) == Some(content))
    && (plan.failAt <= 5 ==> Shows(fs, c))
    && (plan.failAt == 6 ==> Read(fs, Dest) == Some(content))
  }

  lemma FailureStops(fs: FS, c: set<Option<Content>>, content: Content, plan: Plan)
    requires plan.failAt < |PROGRAM| && Stage(fs, c, content, plan.failAt)
    ensures Stopped(FailedApply(fs, PROGRAM[plan.failAt], plan), c, content, plan)
  {
    var fs' := FailedApply(fs, PROGRAM[plan.failAt], plan);
    assert Lookup(fs, Tmp) in Entries(fs, Tmp);
    assert forall n :: Entries(fs', n) == Entries(fs, n);
  }

  lemma StageIsSafe(fs: FS, c: set<Option<Content>>, content: Content, pc: nat, plan: Plan)
    requires pc <= |PROGRAM| && Stage(fs, c, content, pc)
    ensures Safe(fs, c, content)
    ensures pc == |PROGRAM| && plan.failAt >= pc ==> Stopped(fs, c, content, plan)
  {
  }

  ghost predicate AllSafe(trace: seq<FS>, c: set<Option<Content>>, content: Content) {
    forall i :: 0 <= i < |trace| ==> Safe(trace[i], c, content)
  }

  lemma OneMoreSafe(fs: FS, rest: seq<FS>, c: set<Option<Content>>, content: Content)
    requires Safe(fs, c, content) && AllSafe(rest, c, content)
    ensures AllSafe([fs] + rest, c, content)
  {
  }

  lemma FailingStepIsSafe(fs: FS, c: set<Option<Content>>, content: Content, plan: Plan)
    requires plan.failAt < |PROGRAM| && Stage(fs, c, content, plan.failAt)
    ensures AllSafe([fs, FailedApply(fs, PROGRAM[plan.failAt], plan)], c, content)
    ensures Stopped(FailedApply(fs, PROGRAM[plan.failAt], plan), c, content, plan)
  {
    StageIsSafe(fs, c, content, plan.failAt, plan);
    FailureStops(fs, c, content, plan);
  }

  lemma {:induction false} StepsAreSafe(fs: FS, c: set<Option<Content>>, content: Content, plan: Plan, pc: nat)
    requires pc <= |PROGRAM| && pc <= plan.failAt && Stage(fs, c, content, pc)
    ensures AllSafe(Steps(fs, content, plan, pc), c, content)
    decreases |PROGRAM| - pc
  {
    StageIsSafe(fs, c, content, pc, plan);
    if pc < |PROGRAM| {
      StepsUnfold(fs, content, plan, pc);
      if pc == plan.failAt {
        FailingStepIsSafe(fs, c, content, plan);
      } else {
        StageAdvances(fs, c, content, pc);
        StepsAreSafe(Apply(fs, PROGRAM[pc], content), c, content, plan, pc + 1);
        OneMoreSafe(fs, Steps(Apply(fs, PROGRAM[pc], content), content, plan, pc + 1), c, content);
      }
    }
  }

  lemma {:induction false} StepsStop(fs: FS, c: set<Option<Content>>, content: Content, plan: Plan, pc: nat)
    requires pc <= |PROGRAM| && pc <= plan.failAt && Stage(fs, c, content, pc)
    ensures Stopped(Last(Steps(fs, content, plan, pc)), c, content, plan)
    decreases |PROGRAM| - pc
  {
    if pc == |PROGRAM| {
      StageIsSafe(fs, c, content, pc, plan);
    } else {
      StepsUnfold(fs, content, plan, pc);
      if pc == plan.failAt {
        FailureStops(fs, c, content, plan);
      } else {
        StageAdvances(fs, c, content, pc);
        StepsStop(Apply(fs, PROGRAM[pc], content), c, content, plan, pc + 1);
      }
    }
  }

  lemma {:induction false} ReturnsUnlessRaised(fs: FS, c: set<Option<Content>>, content: Content, plan: Plan, pc: nat)
    requires pc <= |PROGRAM| && pc <= plan.failAt && Stage(fs, c, content, pc)
    ensures Returns(fs, content, plan, pc) <==> plan.failAt >= |PROGRAM|
    decreases |PROGRAM| - pc
  {
    if pc < |PROGRAM| && pc != plan.failAt {
      StageAdvances(fs, c, content, pc);
      ReturnsUnlessRaised(Apply(fs, PROGRAM[pc], content), c, content, plan, pc + 1);
    }
  }

  /** The state step pc leads to in the end: from the next state if it succeeds. */
  lemma StepsUnfold(fs: FS, content: Content, plan: Plan, pc: nat)
    requires pc < |PROGRAM|
    ensures var now := Steps(fs, content, plan, pc);
            if pc == plan.failAt || !Enabled(fs, PROGRAM[pc]) then
              var stop := FailedApply(fs, PROGRAM[pc], plan);
              now == [fs] + [stop] && Last(now) == stop
            else
              var rest := Steps(Apply(fs, PROGRAM[pc], content), content, plan, pc + 1);
              now == [fs] + rest && Last(now) == Last(rest)
  {
  }

  lemma OverwriteEnds(fs: FS, content: Content, plan: Plan)
    ensures Last(Overwrite(fs, content, plan)) == Cleanup(Last(Steps(fs, content, plan, 0)), plan)
  {
  }

  lemma CleanupStops(fs: FS, c: set<Option<Content>>, content: Content, plan: Plan)
    requires Stopped(fs, c, content, plan)
    ensures Stopped(Cleanup(fs, plan), c, content, plan)
  {
    UnlinkTmpKeeps(fs, c);
    UnlinkTmpKeeps(fs, c + {Some(content)});
    UnlinkTmpKeeps(fs, {Some(content)});
  }

  /** Before the try block there is only the removal of a stale file. */
  lemma FirstStep(fs: FS, c: set<Option<Content>>, content: Content, plan: Plan)
    requires Wf(fs) && Shows(fs, c)
    ensures plan.failAt == 0 ==> Last(Overwrite(fs, content, plan)) == fs && Stopped(fs, c, content, plan)
    ensures plan.failAt > 0 ==>
              && Last(Overwrite(fs, content, plan)) == Cleanup(Last(Steps(Unlink(fs, Tmp), content, plan, 1)), plan)
              && Stage(Unlink(fs, Tmp), c, content, 1) && Safe(Unlink(fs, Tmp), c, content)
    ensures Safe(fs, c, content)
  {
    OverwriteEnds(fs, content, plan);
    StepsUnfold(fs, content, plan, 0);
    StageIsSafe(fs, c, content, 0, plan);
    StageAdvances(fs, c, content, 0);
    if plan.failAt == 0 {
      FailureStops(fs, c, content, plan);
    } else {
      StageIsSafe(Unlink(fs, Tmp), c, content, 1, plan);
    }
  }

  // ------------------------------------------------- what an overwrite leaves alone

  /** Old data is where it was, and every other name leads to what it did. */
  ghost predicate OthersKept(before: FS, fs: FS) {
    && before.next <= fs.next
    && (forall i :: i in before.data && i < before.next ==> i in fs.data && fs.data[i] == before.data[i])
    && (forall m :: Lookup(fs, Other(m)) == Lookup(before, Other(m)))
  }

  /** What else holds before step pc of an overwrite that began in before. */
  ghost predicate Underway(before: FS, fs: FS, content: Content, pc: nat) {
    && OthersKept(before, fs)
    && (pc == 1 ==> Tmp !in fs.dir)
    && (2 <= pc <= 5 ==> Tmp in fs.dir && fs.dir[Tmp] >= before.next)
    && (3 <= pc <= 5 ==> Read(fs, Tmp) == Some(content))
    && (pc <= 5 ==> Lookup(fs, Dest) == Lookup(before, Dest))
    && (pc >= 6 ==> Tmp !in fs.dir)
  }

  lemma UnderwayEarly(before: FS, fs: FS, content: Content, pc: nat)
    requires Underway(before, fs, content, pc) && pc <= 2
    ensures Enabled(fs, PROGRAM[pc]) && Underway(before, Apply(fs, PROGRAM[pc], content), content, pc + 1)
  {
  }

  lemma UnderwayLate(before: FS, fs: FS, content: Content, pc: nat)
    requires Underway(before, fs, content, pc) && 2 < pc < |PROGRAM|
    ensures Enabled(fs, PROGRAM[pc]) && Underway(before, Apply(fs, PROGRAM[pc], content), content, pc + 1)
  {
  }

  lemma UnderwayAdvances(before: FS, fs: FS, content: Content, pc: nat)
    requires Underway(before, fs, content, pc) && pc < |PROGRAM|
    ensures OthersKept(before, fs)
    ensures Enabled(fs, PROGRAM[pc]) && Underway(before, Apply(fs, PROGRAM[pc], content), content, pc + 1)
  {
    if pc <= 2 { UnderwayEarly(before, fs, content, pc); } else { UnderwayLate(before, fs, content, pc); }
  }

  /** Where an overwrite that began in before has left its files. */
  ghost predicate LeftBy(before: FS, fs: FS, content: Content, plan: Plan) {
    && OthersKept(before, fs)
    && (2 <= plan.failAt <= 5 ==> Read(fs, Tmp) == Some(if plan.failAt == 2 then plan.partial else content))
    && (plan.failAt <= 5 ==> Lookup(fs, Dest) == Lookup(before, Dest))
    && (Tmp in fs.dir <==> 2 <= plan.failAt <= 5 || (plan.failAt == 0 && Tmp in before.dir))
  }

  ghost predicate AllKeepOthers(before: FS, trace: seq<FS>) {
    forall i :: 0 <= i < |trace| ==> OthersKept(before, trace[i])
  }

  lemma FailingStepLeaves(before: FS, fs: FS, content: Content, plan: Plan)
    requires plan.failAt < |PROGRAM| && Underway(before, fs, content, plan.failAt)
    requires plan.failAt == 0 ==> fs == before
    ensures OthersKept(before, fs) && LeftBy(before, FailedApply(fs, PROGRAM[plan.failAt], plan), content, plan)
  {
  }

  lemma GoingOnLeaves(before: FS, fs: FS, content: Content, plan: Plan, pc: nat)
    requires pc < |PROGRAM| && pc < plan.failAt && OthersKept(before, fs) && Enabled(fs, PROGRAM[pc])
    requires var rest := Steps(Apply(fs, PROGRAM[pc], content), content, plan, pc + 1);
             AllKeepOthers(before, rest) && LeftBy(before, Last(rest), content, plan)
    ensures AllKeepOthers(before, Steps(fs, content, plan, pc))
    ensures LeftBy(before, Last(Steps(fs, content, plan, pc)), content, plan)
  {
    StepsUnfold(fs, content, plan, pc);
  }

  lemma EndLeaves(before: FS, fs: FS, content: Content, plan: Plan)
    requires plan.failAt >= |PROGRAM| && Underway(before, fs, content, |PROGRAM|)
    ensures AllKeepOthers(before, [fs]) && LeftBy(before, fs, content, plan)
  {
  }

  lemma {:induction false} StepsLeave(before: FS, fs: FS, content: Content, plan: Plan, pc: nat)
    requires pc <= |PROGRAM| && pc <= plan.failAt && Underway(before, fs, content, pc)
    requires pc == 0 ==> fs == before
    ensures AllKeepOthers(before, Steps(fs, content, plan, pc))
    ensures LeftBy(before, Last(Steps(fs, content, plan, pc)), content, plan)
    decreases |PROGRAM| - pc
  {
    if pc == |PROGRAM| {
      EndLeaves(before, fs, content, plan);
    } else if pc == plan.failAt {
      StepsUnfold(fs, content, plan, pc);
      FailingStepLeaves(before, fs, content, plan);
    } else {
      UnderwayAdvances(before, fs, content, pc);
      StepsLeave(before, Apply(fs, PROGRAM[pc], content), content, plan, pc + 1);
      GoingOnLeaves(before, fs, content, plan, pc);
    }
  }

  lemma KeptReadsSame(before: FS, fs: FS, n: Name)
    requires Wf(before) && OthersKept(before, fs) && Lookup(fs, n) == Lookup(before, n)
    ensures Read(fs, n) == Read(before, n)
  {
    assert Lookup(before, n) in Entries(before, n);
  }

  lemma CleanupLeaves(before: FS, fs: FS, content: Content, plan: Plan)
    requires LeftBy(before, fs, content, plan)
    ensures OthersKept(before, Cleanup(fs, plan)) && Lookup(Cleanup(fs, plan), Dest) == Lookup(fs, Dest)
    ensures Tmp in Cleanup(fs, plan).dir <==>
              (2 <= plan.failAt <= 5 && plan.cleanupFails) || (plan.failAt == 0 && Tmp in before.dir)
    ensures 2 <= plan.failAt <= 5 && plan.cleanupFails ==>
              Read(Cleanup(fs, plan), Tmp) == Some(if plan.failAt == 2 then plan.partial else content)
  {
  }

  /** However an overwrite ends, no state of it touches any other file, a failure
      before the rename leaves the destination as it was, and the temporary file is
      left behind exactly if the cleanup failed after a failure between its creation
      and the rename, or if not even a stale one could be removed. */
  lemma OverwriteCleansUp(fs: FS, content: Content, plan: Plan)
    requires Wf(fs)
    ensures var end := Last(Overwrite(fs, content, plan));
            && (Tmp in end.dir <==>
                  (2 <= plan.failAt <= 5 && plan.cleanupFails) || (plan.failAt == 0 && Tmp in fs.dir))
            && (2 <= plan.failAt <= 5 && plan.cleanupFails ==>
                  Read(end, Tmp) == Some(if plan.failAt == 2 then plan.partial else content))
            && (plan.failAt <= 5 ==> Read(end, Dest) == Read(fs, Dest))
    ensures forall i, m :: 0 <= i < |Overwrite(fs, content, plan)| ==>
              Read(Overwrite(fs, content, plan)[i], Other(m)) == Read(fs, Other(m))
  {
    StepsLeave(fs, fs, content, plan, 0);
    OverwriteEnds(fs, content, plan);
    CleanupLeaves(fs, Last(Steps(fs, content, plan, 0)), content, plan);
    if plan.failAt <= 5 { KeptReadsSame(fs, Last(Overwrite(fs, content, plan)), Dest); }
    forall i, m | 0 <= i < |Overwrite(fs, content, plan)|
      ensures Read(Overwrite(fs, content, plan)[i], Other(m)) == Read(fs, Other(m))
    {
      KeptReadsSame(fs, Overwrite(fs, content, plan)[i], Other(m));
    }
  }

  /** From any disk, stale or hard-linked temporary file included: every state of
      an overwrite is safe, it returns normally exactly when no step raises, and
      it then leaves the new content as the only one a crash can uncover.  It leaves
      no temporary file unless its cleanup fails, and the destination as it was
      unless it gets to the rename. */
  lemma OverwriteIsAtomic(fs: FS, c: set<Option<Content>>, content: Content, plan: Plan)
    requires Wf(fs) && Shows(fs, c)
    ensures AllSafe(Overwrite(fs, content, plan), c, content)
    ensures Stopped(Last(Overwrite(fs, content, plan)), c, content, plan)
    ensures Returns(fs, content, plan, 0) <==> plan.failAt >= |PROGRAM|
    ensures (plan.failAt > 0 && !plan.cleanupFails) || plan.failAt >= |PROGRAM| ==>
              Tmp !in Last(Overwrite(fs, content, plan)).dir
    ensures plan.failAt <= 5 ==> Read(Last(Overwrite(fs, content, plan)), Dest) == Read(fs, Dest)
  {
    OverwriteCleansUp(fs, content, plan);
    StepsAreSafe(fs, c, content, plan, 0);
    StepsStop(fs, c, content, plan, 0);
    ReturnsUnlessRaised(fs, c, content, plan, 0);
    var body := Steps(fs, content, plan, 0);
    CleanupStops(Last(body), c, content, plan);
  }

  // --------------------------------------------------- runs of overwrites and crashes

  /** An overwrite that ends (normally or not), one cut short by a crash after its
      at-th state, or a crash between overwrites; after is what the crash leaves. */
  datatype Event =
    | Whole(content: Content, plan: Plan)
    | Cut(content: Content, plan: Plan, at: nat, after: FS)
    | Crash(after: FS)

  ghost predicate Possible(fs: FS, e: Event) {
    match e
    case Whole(_, _) => true
    case Cut(content, plan, at, after) =>
      at < |Overwrite(fs, content, plan)| && CanCrashTo(Overwrite(fs, content, plan)[at], after)
    case Crash(after) => CanCrashTo(fs, after)
  }

  function Result(fs: FS, e: Event): FS {
    match e
    case Whole(content, plan) => Last(Overwrite(fs, content, plan))
    case Cut(_, _, _, after) => after
    case Crash(after) => after
  }

  ghost predicate PossibleRun(fs: FS, events: seq<Event>)
    decreases |events|
  {
    events == [] || (Possible(fs, events[0]) && PossibleRun(Result(fs, events[0]), events[1..]))
  }

  function RunResult(fs: FS, events: seq<Event>): FS
    decreases |events|
  {
    if events == [] then fs else RunResult(Result(fs, events[0]), events[1..])
  }

  /** The contents the destination may show after an event, if it could show c
      before: one only after a normal return or a crash. */
  function Outlook(fs: FS, c: set<Option<Content>>, e: Event): set<Option<Content>> {
    match e
    case Whole(content, plan) =>
      if plan.failAt >= |PROGRAM| then {Some(content)}
      else if plan.failAt <= 5 then c
      else c + {Some(content)}
    case _ => {Read(e.after, Dest)}
  }

  function RunOutlook(fs: FS, c: set<Option<Content>>, events: seq<Event>): set<Option<Content>>
    decreases |events|
  {
    if events == [] then c
    else RunOutlook(Result(fs, events[0]), Outlook(fs, c, events[0]), events[1..])
  }

  lemma EventKeepsOutlook(fs: FS, c: set<Option<Content>>, e: Event)
    requires Wf(fs) && Shows(fs, c) && Possible(fs, e)
    ensures Wf(Result(fs, e)) && Shows(Result(fs, e), Outlook(fs, c, e))
    ensures Outlook(fs, c, e) <= c + if e.Crash? then {} else {Some(e.content)}
  {
    match e
    case Whole(content, plan) => OverwriteIsAtomic(fs, c, content, plan);
    case Cut(content, plan, at, after) =>
      OverwriteIsAtomic(fs, c, content, plan);
      CrashShows(Overwrite(fs, content, plan)[at], c + {Some(content)}, after);
    case Crash(after) => CrashShows(fs, c, after);
  }

  function Written(events: seq<Event>): set<Option<Content>> {
    if events == [] then {}
    else (if events[0].Crash? then {} else {Some(events[0].content)}) + Written(events[1..])
  }

  /** Any sequence of overwrites, failures and crashes, from a disk on which the
      destination shows one of c: it always shows a content in c or one of those
      written, whole; RunOutlook says which are possible, now or after a crash. */
  lemma {:induction false} DestinationIsNeverTorn(fs: FS, c: set<Option<Content>>, events: seq<Event>)
    requires Wf(fs) && Shows(fs, c) && PossibleRun(fs, events)
    ensures Wf(RunResult(fs, events)) && Shows(RunResult(fs, events), RunOutlook(fs, c, events))
    ensures Read(RunResult(fs, events), Dest) in RunOutlook(fs, c, events)
    ensures RunOutlook(fs, c, events) <= c + Written(events)
    decreases |events|
  {
    if events == [] {
      assert Lookup(fs, Dest) in Entries(fs, Dest);
    } else {
      var e := events[0];
      EventKeepsOutlook(fs, c, e);
      DestinationIsNeverTorn(Result(fs, e), Outlook(fs, c, e), events[1..]);
    }
  }

  /** What a name may show after a crash: by each entry it may have, no file, the
      synced data, or any bytes at all. */
  ghost predicate MayShow(fs: FS, n: Name, x: Option<Content>) {
    exists e :: e in Entries(fs, n) &&
      match e
      case None => x == None
      case Some(i) => x.Some? && (i in fs.synced ==> Some(x.value) == ContentOf(fs, e))
  }

  function CrashShowing(fs: FS, n: Name, e: Option<nat>, x: Option<Content>): FS {
    fs.(dir := if e.Some? then fs.dir[n := e.value] else fs.dir - {n}, older := map[],
        data := if e.Some? && x.Some? then fs.data[e.value := x.value] else fs.data, synced := fs.data.Keys)
  }

  /** A crash can leave exactly this: nothing that is not synced is safe, and
      nothing that is can be lost. */
  lemma CrashShowsExactly(fs: FS, n: Name, x: Option<Content>)
    requires Wf(fs)
    ensures (exists after :: CanCrashTo(fs, after) && Read(after, n) == x) <==> MayShow(fs, n, x)
  {
    if MayShow(fs, n, x) {
      var e :| e in Entries(fs, n) &&
        match e
        case None => x == None
        case Some(i) => x.Some? && (i in fs.synced ==> Some(x.value) == ContentOf(fs, e));
      var after := CrashShowing(fs, n, e, x);
      forall k ensures Entries(after, k) == {Lookup(after, k)} && Lookup(after, k) in Entries(fs, k) {
        assert Lookup(after, k) == if k == n then e else Lookup(fs, k);
      }
      assert after.data.Keys == fs.data.Keys;
      assert CanCrashTo(fs, after) && Read(after, n) == x;
    }
    forall after | CanCrashTo(fs, after) && Read(after, n) == x ensures MayShow(fs, n, x) {
      assert Lookup(after, n) in Entries(fs, n) && Lookup(after, n) in Entries(after, n);
    }
  }

  /** A crash leaves the disk as a program sees it afterwards. */
  function CrashWith(fs: FS, e: Option<nat>): FS {
    fs.(dir := if e.Some? then fs.dir[Dest := e.value] else fs.dir - {Dest},
        older := map[], synced := fs.data.Keys)
  }

  lemma CrashWithIsPossible(fs: FS, e: Option<nat>)
    requires Wf(fs) && e in Entries(fs, Dest)
    ensures CanCrashTo(fs, CrashWith(fs, e)) && Read(CrashWith(fs, e), Dest) == ContentOf(fs, e)
  {
    var fs' := CrashWith(fs, e);
    forall n ensures Entries(fs', n) == {Lookup(fs', n)} && Lookup(fs', n) in Entries(fs, n) {
      assert Lookup(fs', n) == if n == Dest then e else Lookup(fs, n);
    }
  }

  /** Exactly the content visible before the call, or exactly the new one, after
      any failure and any crash, holds if and only if the destination could show
      nothing else when the call began (an earlier overwrite whose last directory
      sync failed may still fall back to its predecessor). */
  lemma OldOrNewExactly(fs: FS, content: Content)
    requires Wf(fs) && exists c :: Shows(fs, c)
    ensures (forall plan, at: nat, after :: Possible(fs, Cut(content, plan, at, after)) ==>
               Read(after, Dest) in {Read(fs, Dest), Some(content)})
       <==> Shows(fs, {Read(fs, Dest), Some(content)})
  {
    var both := {Read(fs, Dest), Some(content)};
    if Shows(fs, both) {
      forall plan, at: nat, after | Possible(fs, Cut(content, plan, at, after))
        ensures Read(after, Dest) in both
      {
        EventKeepsOutlook(fs, both, Cut(content, plan, at, after));
      }
    } else {
      var c :| Shows(fs, c);
      var e :| e in Entries(fs, Dest) && ContentOf(fs, e) !in both;
      CrashWithIsPossible(fs, e);
      var plan := Plan(|PROGRAM|, content, false);
      assert Overwrite(fs, content, plan)[0] == fs;
      assert Possible(fs, Cut(content, plan, 0, CrashWith(fs, e)));
    }
  }
}
