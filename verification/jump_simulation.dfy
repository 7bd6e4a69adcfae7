/** Every program runs on the jump machine as Actual says, and a disciplined one
    as structured exceptions prescribe. */
module JumpSimulation {
  import opened Wrappers

  import opened TryLanguage
  import opened JumpMachine

  // ------------------------------------------------------- reachability algebra

  lemma Here(a: Config)
    ensures Reaches(a, a)
  {
    assert StepN(a, 0) == a;
  }

  lemma Next(a: Config, b: Config)
    requires Reaches(Step(a), b)
    ensures Reaches(a, b)
  {
    var n: nat :| StepN(Step(a), n) == b;
    assert StepN(a, n + 1) == b;
  }

  lemma {:induction false} StepNPlus(a: Config, m: nat, n: nat)
    ensures StepN(StepN(a, m), n) == StepN(a, m + n)
    decreases m
  {
    if m > 0 { StepNPlus(Step(a), m - 1, n); }
  }

  lemma Trans(a: Config, b: Config, c: Config)
    requires Reaches(a, b) && Reaches(b, c)
    ensures Reaches(a, c)
  {
    var m: nat :| StepN(a, m) == b;
    var n: nat :| StepN(b, n) == c;
    StepNPlus(a, m, n);
  }

  // ------------------------------------------------------------ the simulation

  predicate Dangles(es: Option<nat>, k: Kont) {
    es.Some? && es.value !in Live(k)
  }

  /** Activation numbers in use are below next, and a pointer that does not
      dangle points to a buffer sigsetjmp has filled. */
  predicate Sane(m: Machine) {
    && (forall id :: id in Live(m.k) ==> id < m.next)
    && (m.es.Some? ==> m.es.value < m.next)
    && (m.es.Some? && m.es.value in Live(m.k) ==> m.es.value in m.mem && m.mem[m.es.value].buf.Some?)
  }

  /** The locals of every activation older than m are untouched in m'. */
  predicate Preserves(m: Machine, m': Machine) {
    && m.next <= m'.next
    && forall id :: id in m.mem && id < m.next ==> id in m'.mem && m'.mem[id] == m.mem[id]
  }

  /** m' is where the machine stands when a statement started in m, whose stack
      below the statement is m.k, has ended as r says. */
  predicate Ended(m: Machine, r: Actuality, m': Machine) {
    && Preserves(m, m')
    && m'.st == r.st
    && m'.k == (if r.ending.Left? then AfterReturn(m.k) else m.k)
    && (if r.kept then m'.es == m.es else Dangles(m'.es, m'.k) && m'.es.value < m'.next)
  }

  /** The configuration the machine reaches: it goes on, jumps, or has met
      undefined behaviour. */
  function Landing(r: Actuality, m': Machine): Config {
    match r.ending
    case Raised(re) => Jump(m', re)
    case Undefined => Final(DanglingJump, m'.es, r.st)
    case _ => Running(m')
  }

  ghost predicate Simulates(c: Config, m: Machine, r: Actuality, m': Machine) {
    && (r.ending.Undefined? || Ended(m, r, m'))
    && Reaches(c, Landing(r, m'))
  }

  lemma {:induction false} ReturnShrinksLive(k: Kont)
    ensures Live(AfterReturn(k)) <= Live(k)
  {
    match k
    case Do(_, r) => ReturnShrinksLive(r);
    case EndBlock(_, r) => ReturnShrinksLive(r);
    case _ =>
  }

  function Start(s: Stmt, m: Machine): Config {
    Running(m.(k := Do(Expand(s), m.k)))
  }

  /** Every statement, in every context, runs on the machine as Actual says. */
  lemma {:induction false} Simulate(s: Stmt, m: Machine) returns (m': Machine)
    requires Sane(m)
    ensures Simulates(Start(s, m), m, Actual(s, m.st, Dangles(m.es, m.k)), m')
    decreases |m.st.inp|, s, 1
  {
    var c := Start(s, m);
    var d := Dangles(m.es, m.k);
    var r := Actual(s, m.st, d);
    match s
    case Skip => m' := m; Here(Step(c)); Next(c, Running(m'));
    case Emit(n) => m' := m.(st := r.st); Here(Step(c)); Next(c, Running(m'));
    case Throw => m' := m; Here(Step(c)); Next(c, Landing(r, m'));
    case Return => m' := m.(k := AfterReturn(m.k)); Here(Step(c)); Next(c, Running(m'));
    case If(a, b) =>
      m' := Simulate(if Bit(m.st) then a else b, m.(st := Consume(m.st)));
      Next(c, Landing(r, m'));
    case Call(a) =>
      m' := SimulateCall(a, m);
    case Seq(a, b) =>
      m' := SimulateThen(a, b, m);
      Next(c, Landing(r, m'));
    case While(a) =>
      if Bit(m.st) {
        m' := SimulateThen(a, s, m.(st := Consume(m.st)));
        Next(c, Landing(r, m'));
      } else {
        m' := m.(st := r.st); Here(Step(c)); Next(c, Running(m'));
      }
    case TryCatch(a, b) =>
      m' := SimulateCatch(a, b, m);
    case TryFinally(a, b) =>
      m' := SimulateFinally(a, b, m);
  }

  /** Two endings in a row. */
  lemma EndedThenEnded(m: Machine, ra: Actuality, m1: Machine, rb: Actuality, m': Machine)
    requires ra.ending.Fell? && Ended(m, ra, m1) && Ended(m1, rb, m')
    ensures Ended(m, After(ra, rb), m')
  {
    ReturnShrinksLive(m.k);
  }

  /** a and then b, both already on the stack. */
  lemma {:induction false} SimulateThen(a: Stmt, b: Stmt, m: Machine) returns (m': Machine)
    requires Sane(m)
    ensures var d := Dangles(m.es, m.k);
            var ra := Actual(a, m.st, d);
            var r := if ra.ending.Fell? then After(ra, Actual(b, ra.st, d || !ra.kept)) else ra;
            Simulates(Running(m.(k := Do(Expand(a), Do(Expand(b), m.k)))), m, r, m')
    decreases |m.st.inp|, Seq(a, b), 0
  {
    var c := Start(a, With(m, b));
    var d := Dangles(m.es, m.k);
    var ra := Actual(a, m.st, d);
    assert Live(With(m, b).k) == Live(m.k);
    var m1 := Simulate(a, With(m, b));
    if ra.ending.Fell? {
      FirstFell(m, b, ra, m1);
      var m2 := m1.(k := m.k);
      m' := Simulate(b, m2);
      SecondEnds(c, Running(m1), m, ra, m2, Actual(b, ra.st, d || !ra.kept), m');
    } else if ra.ending.Left? {
      m' := m1;
      FirstLeft(c, m, b, ra, m1);
    } else {
      m' := m1.(k := m.k);
      FirstFailed(c, m, b, ra, m1);
    }
  }

  /** The machine with b waiting under the statement it is to run. */
  function With(m: Machine, b: Stmt): Machine {
    m.(k := Do(Expand(b), m.k))
  }

  lemma FirstFell(m: Machine, b: Stmt, ra: Actuality, m1: Machine)
    requires Sane(m) && ra.ending.Fell? && Ended(With(m, b), ra, m1)
    ensures var m2 := m1.(k := m.k);
            && Ended(m, ra, m2) && Sane(m2) && m2.st == ra.st && Start(b, m2) == Running(m1)
            && Dangles(m2.es, m2.k) == (Dangles(m.es, m.k) || !ra.kept)
  {
    assert Live(With(m, b).k) == Live(m.k);
  }

  lemma FirstLeft(c: Config, m: Machine, b: Stmt, ra: Actuality, m1: Machine)
    requires ra.ending.Left? && Simulates(c, With(m, b), ra, m1)
    ensures Simulates(c, m, ra, m1)
  {
    assert AfterReturn(With(m, b).k) == AfterReturn(m.k);
  }

  lemma FirstFailed(c: Config, m: Machine, b: Stmt, ra: Actuality, m1: Machine)
    requires (ra.ending.Raised? || ra.ending.Undefined?) && (ra.ending.Raised? ==> ra.kept)
    requires Simulates(c, With(m, b), ra, m1)
    ensures Simulates(c, m, ra, m1.(k := m.k))
  {
    if ra.ending.Raised? {
      assert Live(m1.k) == Live(m.k);
      assert Landing(ra, m1.(k := m.k)) == Landing(ra, m1);
    }
  }

  lemma SecondEnds(c: Config, c1: Config, m: Machine, ra: Actuality, m2: Machine, rb: Actuality, m': Machine)
    requires ra.ending.Fell? && Ended(m, ra, m2)
    requires Reaches(c, c1) && Simulates(c1, m2, rb, m')
    ensures Simulates(c, m, After(ra, rb), m')
  {
    Trans(c, c1, Landing(rb, m'));
    if !rb.ending.Undefined? { EndedThenEnded(m, ra, m2, rb, m'); }
  }

  lemma {:induction false} SimulateCall(a: Stmt, m: Machine) returns (m': Machine)
    requires Sane(m)
    ensures Simulates(Start(Call(a), m), m, Actual(Call(a), m.st, Dangles(m.es, m.k)), m')
    decreases |m.st.inp|, Call(a), 0
  {
    var c := Start(Call(a), m);
    var mc := m.(k := EndCall(m.k));
    var ra := Actual(a, m.st, Dangles(m.es, m.k));
    var m1 := Simulate(a, mc);
    assert Step(c) == Start(a, mc);
    Next(c, Landing(ra, m1));
    m' := m1.(k := m.k);
    if ra.ending.Fell? {
      Here(Running(m'));
      Next(Running(m1), Running(m'));
      Trans(c, Running(m1), Running(m'));
    }
  }

  /** The common opening of both macros: the block is entered, sigsetjmp returns
      zero and the pointer is set to the local buffer. */
  function InTry(m: Machine, nonzero: Code, tail: Code): Machine {
    var k := Do(tail, EndBlock(m.next, m.k));
    m.(k := k, es := Some(m.next), next := m.next + 1,
       mem := m.mem[m.next := Locals(m.es, Some(Do(nonzero, k)), false)])
  }

  lemma InTryIsSane(m: Machine, nonzero: Code, tail: Code)
    requires Sane(m)
    ensures var mb := InTry(m, nonzero, tail);
            Sane(mb) && Live(mb.k) == {m.next} + Live(m.k) && AfterReturn(mb.k) == AfterReturn(m.k)
  {
    var block := EndBlock(m.next, m.k);
    assert Live(Do(tail, block)) == Live(block) == {m.next} + Live(m.k);
    assert AfterReturn(Do(tail, block)) == AfterReturn(block) == AfterReturn(m.k);
  }

  lemma EnterTry(a: Stmt, nonzero: Code, tail: Code, m: Machine)
    ensures Reaches(Running(m.(k := Do(Block(Then(Setjmp(Then(Install, Expand(a)), nonzero), tail)), m.k))),
                    Start(a, InTry(m, nonzero, tail)))
  {
    var setjmp := Setjmp(Then(Install, Expand(a)), nonzero);
    var block := EndBlock(m.next, m.k);
    assert Scope(Do(tail, block)) == Scope(block) == Some(m.next);
    var c0 := Running(m.(k := Do(Block(Then(setjmp, tail)), m.k)));
    var c1, c5 := Step(c0), Start(a, InTry(m, nonzero, tail));
    var c2 := Step(c1);
    var c3 := Step(c2);
    var c4 := Step(c3);
    assert Step(c4) == c5;
    Here(c5);
    Next(c4, c5); Next(c3, c5); Next(c2, c5); Next(c1, c5); Next(c0, c5);
  }

  /** TEST_END_TRY: a marked activation re-throws, another restores the pointer
      and closes its block. */
  lemma LeaveTry(m: Machine, id: nat, k: Kont)
    requires m.k == EndBlock(id, k) && id in m.mem
    ensures var c := Running(m.(k := Do(EndTry(), m.k)));
            Reaches(c, if m.mem[id].rethrow then Jump(m.(k := Do(Restore, m.k)), true)
                       else Running(m.(k := k, es := m.mem[id].save)))
  {
    assert Scope(Do(Restore, m.k)) == Scope(m.k) == Some(id);
    var c0 := Running(m.(k := Do(EndTry(), m.k)));
    var c1 := Step(c0);
    var c2 := Step(c1);
    Here(c2);
    Next(c1, c2); Next(c0, c2);
    if !m.mem[id].rethrow {
      var c3 := Step(c2);
      var c4 := Step(c3);
      Here(c4);
      Next(c3, c4); Next(c2, c4);
      Trans(c0, c2, c4);
    }
  }

  /** How a try statement ends once its handler or finally block has ended as h
      says; marked is _do_rethrow. */
  function TryEnding(h: Actuality, marked: bool, dangling: bool): Actuality {
    if !h.ending.Fell? then h
    else if !marked then h.(kept := true)
    else h.(ending := if dangling || !h.kept then Undefined else Raised(true))
  }

  /** mh runs the second arm of the try statement that m entered. */
  predicate InSecondArm(m: Machine, mh: Machine, marked: bool) {
    && Preserves(m, mh) && m.next < mh.next
    && mh.es == m.es
    && mh.k == Do(EndTry(), EndBlock(m.next, m.k))
    && Live(mh.k) == {m.next} + Live(m.k)
    && AfterReturn(mh.k) == AfterReturn(m.k)
    && m.next in mh.mem && mh.mem[m.next].save == m.es && mh.mem[m.next].rethrow == marked
  }

  lemma FinishTry(c: Config, m: Machine, mh: Machine, marked: bool, h: Actuality, m2: Machine)
    returns (m': Machine)
    requires Sane(m) && InSecondArm(m, mh, marked)
    requires Simulates(c, mh, h, m2)
    requires h.ending.Raised? ==> h.kept && !Dangles(m.es, m.k)
    ensures Simulates(c, m, TryEnding(h, marked, Dangles(m.es, m.k)), m')
  {
    var id := m.next;
    if !h.ending.Fell? {
      m' := if h.ending.Left? then m2 else m2.(k := m.k);
      assert h.ending.Raised? ==> Landing(h, m') == Landing(h, m2);
    } else if !marked {
      m' := CloseTry(m2, id, m);
      Trans(c, Running(m2), Running(m'));
    } else {
      m' := m2.(k := m.k);
      LeaveTry(m2.(k := EndBlock(id, m.k)), id, m.k);
      var jump := Jump(m2.(k := Do(Restore, EndBlock(id, m.k))), true);
      Trans(c, Running(m2), jump);
      RethrowLands(m2, m, h.kept);
    }
  }

  /** The re-throw sees the pointer as the cleanup left it. */
  lemma RethrowLands(m2: Machine, m: Machine, kept: bool)
    requires Sane(m) && Preserves(m, m2)
    requires if kept then m2.es == m.es else Dangles(m2.es, m2.k)
    requires m2.k == Do(EndTry(), EndBlock(m.next, m.k)) && Live(m2.k) == {m.next} + Live(m.k)
    ensures Jump(m2.(k := Do(Restore, EndBlock(m.next, m.k))), true)
         == if Dangles(m.es, m.k) || !kept then Final(DanglingJump, m2.es, m2.st) else Jump(m2.(k := m.k), true)
  {
    assert Live(Do(Restore, EndBlock(m.next, m.k))) == Live(EndBlock(m.next, m.k)) == {m.next} + Live(m.k);
  }

  /** A body that returns or meets undefined behaviour decides the whole try. */
  lemma BodyDecides(m: Machine, mb: Machine, ra: Actuality, m1: Machine)
    requires Sane(m) && Preserves(m, mb) && m.next < mb.next && mb.es == Some(m.next)
    requires AfterReturn(mb.k) == AfterReturn(m.k)
    requires ra.ending.Left? && Ended(mb, ra, m1)
    ensures Ended(m, ra.(kept := false), m1)
  {
    ReturnShrinksLive(m.k);
  }

  lemma {:induction false} SimulateCatch(a: Stmt, b: Stmt, m: Machine) returns (m': Machine)
    requires Sane(m)
    ensures Simulates(Start(TryCatch(a, b), m), m, Actual(TryCatch(a, b), m.st, Dangles(m.es, m.k)), m')
    decreases |m.st.inp|, TryCatch(a, b), 0
  {
    var c := Start(TryCatch(a, b), m);
    var nonzero := Then(Restore, Expand(b));
    EnterTry(a, nonzero, EndTry(), m);
    InTryIsSane(m, nonzero, EndTry());
    var mb := InTry(m, nonzero, EndTry());
    var ra := Actual(a, m.st, false);
    var m1 := Simulate(a, mb);
    Trans(c, Start(a, mb), Landing(ra, m1));
    if ra.ending.Fell? {
      m' := CloseTry(m1, m.next, m);
      Trans(c, Running(m1), Running(m'));
    } else if ra.ending.Raised? {
      var mh := ToHandler(m1, mb, m, b, ra);
      Trans(c, Landing(ra, m1), Start(b, mh));
      var h := Actual(b, ra.st, Dangles(m.es, m.k));
      var m2 := Simulate(b, mh);
      Trans(c, Start(b, mh), Landing(h, m2));
      m' := FinishTry(c, m, mh, false, h, m2);
    } else {
      m' := m1;
      if ra.ending.Left? { BodyDecides(m, mb, ra, m1); }
    }
  }

  lemma {:induction false} SimulateFinally(a: Stmt, b: Stmt, m: Machine) returns (m': Machine)
    requires Sane(m)
    ensures Simulates(Start(TryFinally(a, b), m), m, Actual(TryFinally(a, b), m.st, Dangles(m.es, m.k)), m')
    decreases |m.st.inp|, TryFinally(a, b), 0
  {
    var c := Start(TryFinally(a, b), m);
    var tail := Then(Then(Restore, Expand(b)), EndTry());
    EnterTry(a, MarkRethrow, tail, m);
    InTryIsSane(m, MarkRethrow, tail);
    var mb := InTry(m, MarkRethrow, tail);
    var ra := Actual(a, m.st, false);
    var m1 := Simulate(a, mb);
    Trans(c, Start(a, mb), Landing(ra, m1));
    if ra.ending.Fell? || ra.ending.Raised? {
      var mf := ToCleanup(m1, mb, m, b, ra);
      Trans(c, Landing(ra, m1), Start(b, mf));
      var f := Actual(b, ra.st, Dangles(m.es, m.k));
      var m2 := Simulate(b, mf);
      Trans(c, Start(b, mf), Landing(f, m2));
      m' := FinishTry(c, m, mf, ra.ending.Raised?, f, m2);
    } else {
      m' := m1;
      if ra.ending.Left? { BodyDecides(m, mb, ra, m1); }
    }
  }

  /** Both ways into the finally block: falling off the body, or a throw that
      marks the activation; the pointer is restored either way. */
  lemma ToCleanup(m1: Machine, mb: Machine, m: Machine, b: Stmt, ra: Actuality) returns (mf: Machine)
    requires Sane(m)
    requires mb == InTry(m, MarkRethrow, Then(Then(Restore, Expand(b)), EndTry()))
    requires Preserves(mb, m1) && m1.k == mb.k && (ra.ending.Raised? ==> m1.es == mb.es)
    requires ra.ending.Fell? || ra.ending.Raised?
    ensures mf.st == m1.st && Sane(mf) && Dangles(mf.es, mf.k) == Dangles(m.es, m.k)
    ensures InSecondArm(m, mf, ra.ending.Raised?)
    ensures Reaches(Landing(ra, m1), Start(b, mf))
  {
    var id := m.next;
    var kf := Do(EndTry(), EndBlock(id, m.k));
    var restore := Then(Restore, Expand(b));
    assert m1.mem[id] == mb.mem[id];
    assert Live(kf) == Live(EndBlock(id, m.k)) == {id} + Live(m.k);
    assert Live(mb.k) == Live(EndBlock(id, m.k));
    assert AfterReturn(kf) == AfterReturn(EndBlock(id, m.k)) == AfterReturn(m.k);
    assert Scope(mb.k) == Scope(EndBlock(id, m.k)) == Some(id);
    assert Scope(Do(Expand(b), kf)) == Scope(kf) == Some(id);
    var mem := if ra.ending.Fell? then m1.mem else m1.mem[id := m1.mem[id].(rethrow := true)];
    mf := m1.(k := kf, es := m.es, mem := mem);
    var c0 := Running(m1.(mem := mem));
    var c1 := Step(c0);
    var c2 := Step(c1);
    var c3 := Step(c2);
    assert c1 == Running(m1.(k := Do(restore, kf), mem := mem));
    assert c3 == Start(b, mf);
    Here(c3);
    Next(c2, c3); Next(c1, c3); Next(c0, c3);
    if ra.ending.Raised? {
      var landed := Landing(ra, m1);
      assert landed == Running(m1.(k := Do(MarkRethrow, mb.k)));
      assert Step(landed) == c0;
      Next(landed, c3);
    }
  }

  /** An unmarked activation ends: the pointer is back at its entry value. */
  lemma CloseTry(m1: Machine, id: nat, m: Machine) returns (m': Machine)
    requires m1.k == Do(EndTry(), EndBlock(id, m.k))
    requires id in m1.mem && m1.mem[id].save == m.es && !m1.mem[id].rethrow
    ensures m' == m1.(k := m.k, es := m.es)
    ensures Reaches(Running(m1), Running(m'))
  {
    m' := m1.(k := m.k, es := m.es);
    LeaveTry(m1.(k := EndBlock(id, m.k)), id, m.k);
  }

  /** A throw in the body comes back out of sigsetjmp and runs the handler with
      the pointer restored. */
  lemma ToHandler(m1: Machine, mb: Machine, m: Machine, b: Stmt, ra: Actuality) returns (mh: Machine)
    requires Sane(m)
    requires mb == InTry(m, Then(Restore, Expand(b)), EndTry()) && Live(mb.k) == {m.next} + Live(m.k)
    requires Preserves(mb, m1) && m1.es == mb.es && m1.k == mb.k
    requires ra.ending.Raised?
    ensures mh.st == m1.st && Sane(mh) && Dangles(mh.es, mh.k) == Dangles(m.es, m.k)
    ensures InSecondArm(m, mh, false)
    ensures Reaches(Landing(ra, m1), Start(b, mh))
  {
    mh := m1.(k := mb.k, es := m.es);
    assert m1.mem[m.next] == mb.mem[m.next];
    assert AfterReturn(mb.k) == AfterReturn(EndBlock(m.next, m.k)) == AfterReturn(m.k);
    assert Scope(Do(Expand(b), mb.k)) == Scope(mb.k) == Scope(EndBlock(m.next, m.k)) == Some(m.next);
    var c0 := Running(m1.(k := Do(Then(Restore, Expand(b)), mb.k)));
    var c1 := Step(c0);
    var c2 := Step(c1);
    assert c2 == Start(b, mh);
    Here(c2);
    Next(c1, c2); Next(c0, c2);
    assert Landing(ra, m1) == c0;
  }

  // ------------------------------------------------------------- main theorems

  function Boot(s: Stmt, inp: seq<bool>): Config {
    Running(Machine(Do(Expand(s), Halt), None, map[], 0, Store(inp, [])))
  }

  function VerdictOf(e: Ending): Verdict {
    match e
    case Raised(re) => if re then ErrorExit else NullJump
    case Undefined => DanglingJump
    case _ => Completed
  }

  /** The whole program, no restriction: verdict, trace and whether the pointer is
      null again at exit are those of Actual. */
  lemma MachineRunsActual(s: Stmt, inp: seq<bool>) returns (es: Option<nat>)
    ensures var r := Actual(s, Store(inp, []), false);
            && Reaches(Boot(s, inp), Final(VerdictOf(r.ending), es, r.st))
            && (!r.ending.Undefined? ==> (es == None <==> r.kept))
  {
    var m := Machine(Halt, None, map[], 0, Store(inp, []));
    var m' := Simulate(s, m);
    var r := Actual(s, m.st, false);
    es := m'.es;
    if r.ending.Fell? || r.ending.Left? {
      var end := Final(Completed, es, r.st);
      Here(end);
      Next(Running(m'), end);
      Trans(Boot(s, inp), Running(m'), end);
    }
  }

  /** Runs in which no return leaves a try body go as structured exceptions
      prescribe, end with a null pointer and never jump into a dead frame; those are
      all runs of a disciplined program. */
  lemma MacrosImplementExceptions(s: Stmt, inp: seq<bool>)
    requires Disciplined(s) || NoEscape(s, Store(inp, []))
    ensures var r := Eval(s, Store(inp, []));
            Reaches(Boot(s, inp),
                    Final(match r.outcome
                          case Thrown(re) => (if re then ErrorExit else NullJump)
                          case _ => Completed,
                          None, r.st))
  {
    if Disciplined(s) { DisciplinedNeverEscapes(s, Store(inp, [])); }
    NoEscapeIsStructured(s, Store(inp, []));
    var es := MachineRunsActual(s, inp);
  }

  lemma {:induction false} FinalStays(v: Verdict, es: Option<nat>, st: Store, n: nat)
    ensures StepN(Final(v, es, st), n) == Final(v, es, st)
    decreases n
  {
    if n > 0 { FinalStays(v, es, st, n - 1); }
  }

  /** A program has one final configuration, so the theorems above say all. */
  lemma OneFinal(c: Config, a: Config, b: Config)
    requires Reaches(c, a) && Reaches(c, b) && a.Final? && b.Final?
    ensures a == b
  {
    var m: nat :| StepN(c, m) == a;
    var n: nat :| StepN(c, n) == b;
    if m <= n {
      StepNPlus(c, m, n - m);
      FinalStays(a.verdict, a.es, a.st, n - m);
    } else {
      StepNPlus(c, n, m - n);
      FinalStays(b.verdict, b.es, b.st, m - n);
    }
  }

  /** Where the rule is needed: a throw in the caller, after a call whose body is a
      try statement, jumps into a dead frame if and only if the try body returned. */
  lemma ThrowAfterCall(body: Stmt, handler: Stmt, inp: seq<bool>) returns (es: Option<nat>)
    requires NoEscape(body, Store(inp, []))
    requires Eval(body, Store(inp, [])).outcome.Thrown? ==> NoEscape(handler, Eval(body, Store(inp, [])).st)
    ensures var st := Store(inp, []);
            var r := Eval(TryCatch(body, handler), st);
            Reaches(Boot(Seq(Call(TryCatch(body, handler)), Throw), inp),
                    Final(if Eval(body, st).outcome.Returned? then DanglingJump
                          else if r.outcome == Thrown(true) then ErrorExit
                          else NullJump,
                          es, r.st))
  {
    var st := Store(inp, []);
    var s := TryCatch(body, handler);
    NoEscapeIsStructured(body, st);
    CatchExactly(body, handler, st);
    var returned := Eval(body, st).outcome.Returned?;
    if returned {
      assert Actual(s, st, false) == Actuality(Left, Eval(s, st).st, false);
    } else {
      assert Actual(s, st, false) == Ideal(Eval(s, st));
    }
    assert Actual(Throw, Eval(s, st).st, returned).ending == if returned then Undefined else Raised(false);
    es := MachineRunsActual(Seq(Call(s), Throw), inp);
  }

  /** On the machine, for a body whose run leaves no try body by returning: a finally
      block runs once after it, however it ended, and a pending throw ends the program
      through the rethrow. */
  lemma FinallyAlwaysRuns(body: Stmt, n: int, inp: seq<bool>)
    requires NoEscape(body, Store(inp, [])) && !Eval(body, Store(inp, [])).outcome.Returned?
    ensures var r := Eval(body, Store(inp, []));
            Reaches(Boot(TryFinally(body, Emit(n)), inp),
                    Final(if r.outcome.Thrown? then ErrorExit else Completed, None,
                          Store(r.st.inp, r.st.out + [n])))
  {
    MacrosImplementExceptions(TryFinally(body, Emit(n)), inp);
  }

  /** And a handler runs once if the body threw, and not otherwise. */
  lemma HandlerRunsOnThrow(body: Stmt, n: int, inp: seq<bool>)
    requires NoEscape(body, Store(inp, [])) && !Eval(body, Store(inp, [])).outcome.Returned?
    ensures var r := Eval(body, Store(inp, []));
            Reaches(Boot(TryCatch(body, Emit(n)), inp),
                    Final(Completed, None, if r.outcome.Thrown? then Store(r.st.inp, r.st.out + [n]) else r.st))
  {
    MacrosImplementExceptions(TryCatch(body, Emit(n)), inp);
  }

  /** A throw in a finally block takes the place of the pending one and still finds
      the enclosing handler. */
  lemma CleanupThrowSupersedes(inp: seq<bool>)
    ensures Reaches(Boot(TryCatch(TryFinally(Throw, Seq(Emit(1), Throw)), Emit(2)), inp),
                    Final(Completed, None, Store(inp, [1, 2])))
  {
    var cleanup := Seq(Emit(1), Throw);
    var body := TryFinally(Throw, cleanup);
    assert [] + [1] == [1] && [1] + [2] == [1, 2];
    assert Eval(cleanup, Store(inp, [])) == Result(Thrown(false), Store(inp, [1]));
    assert Eval(body, Store(inp, [])) == Result(Thrown(false), Store(inp, [1]));
    assert Disciplined(cleanup) && ReturnFree(cleanup);
    assert Disciplined(body) && ReturnFree(body);
    MacrosImplementExceptions(TryCatch(body, Emit(2)), inp);
  }

  /** A branch takes its first arm on a true bit, and its second otherwise. */
  lemma BranchFollowsInput(a: int, b: int, inp: seq<bool>)
    requires inp != []
    ensures Reaches(Boot(If(Emit(a), Emit(b)), inp),
                    Final(Completed, None, Store(inp[1..], [if inp[0] then a else b])))
  {
    MacrosImplementExceptions(If(Emit(a), Emit(b)), inp);
    assert [] + [a] == [a] && [] + [b] == [b];
  }

  /** A loop runs its body once for every leading true bit. */
  lemma LoopFollowsInput(a: int, n: nat, rest: seq<bool>)
    ensures Reaches(Boot(While(Emit(a)), seq(n, i => true) + [false] + rest),
                    Final(Completed, None, Store(rest, seq(n, i => a))))
  {
    MacrosImplementExceptions(While(Emit(a)), seq(n, i => true) + [false] + rest);
    EvalLoop(a, n, rest, []);
    assert [] + seq(n, i => a) == seq(n, i => a);
  }

  lemma {:induction false} EvalLoop(a: int, n: nat, rest: seq<bool>, out: seq<int>)
    ensures Eval(While(Emit(a)), Store(seq(n, i => true) + [false] + rest, out))
         == Result(Normal, Store(rest, out + seq(n, i => a)))
    decreases n
  {
    var inp := seq(n, i => true) + [false] + rest;
    if n == 0 {
      assert inp[1..] == rest && out + seq(0, i => a) == out;
    } else {
      assert inp[1..] == seq(n - 1, i => true) + [false] + rest;
      EvalLoop(a, n - 1, rest, out + [a]);
      assert out + [a] + seq(n - 1, i => a) == out + seq(n, i => a);
    }
  }

  /** A return out of a try body also skips the finally block. */
  lemma ReturnSkipsFinally(inp: seq<bool>)
    ensures var s := TryFinally(Return, Emit(1));
            && Eval(s, Store(inp, [])) == Result(Returned, Store(inp, [1]))
            && exists es :: es != None && Reaches(Boot(s, inp), Final(Completed, es, Store(inp, [])))
  {
    var es := MachineRunsActual(TryFinally(Return, Emit(1)), inp);
  }
}
