/** The TEST_TRY / TEST_CATCH / TEST_FINALLY macros: structured exceptions
    compiled onto one global pointer to a jump buffer.

    Three semantics of one statement language live here.  Eval is the reference:
    exceptions as a language would define them.  Actual is what the macros make
    of the same program, with a single extra bit of state (does the global
    pointer dangle?).  The third, in module JumpMachine, executes the expanded
    macros with jump buffers, block activations and call frames. */
module TryLanguage {

  /** Programs.  If and While read the next bit of an input stream, so control
      flow is as data dependent as one likes; Call runs its body in a new stack
      frame, which Return leaves. */
  datatype Stmt =
    | Skip
    | Emit(n: int)
    | Throw
    | Return
    | Seq(first: Stmt, second: Stmt)
    | If(thn: Stmt, els: Stmt)
    | While(body: Stmt)
    | Call(body: Stmt)
    | TryCatch(body: Stmt, handler: Stmt)
    | TryFinally(body: Stmt, cleanup: Stmt)

  /** Remaining input bits and the trace emitted so far. */
  datatype Store = Store(inp: seq<bool>, out: seq<int>)

  function Bit(st: Store): bool {
    st.inp != [] && st.inp[0]
  }

  function Consume(st: Store): (r: Store)
    ensures |r.inp| <= |st.inp|
    ensures Bit(st) ==> |r.inp| < |st.inp|
  {
    if st.inp == [] then st else st.(inp := st.inp[1..])
  }

  // ---------------------------------------------------------------- reference

  /** rethrown tells a pending exception re-raised at the end of a finally block
      from one raised directly. */
  datatype Outcome = Normal | Thrown(rethrown: bool) | Returned

  datatype Result = Result(outcome: Outcome, st: Store)

  /** Structured exceptions: a finally block runs however its body ends, and its
      own abrupt outcome supersedes the pending one. */
  function Eval(s: Stmt, st: Store): (r: Result)
    ensures |r.st.inp| <= |st.inp|
    decreases |st.inp|, s
  {
    match s
    case Skip => Result(Normal, st)
    case Emit(n) => Result(Normal, st.(out := st.out + [n]))
    case Throw => Result(Thrown(false), st)
    case Return => Result(Returned, st)
    case Seq(a, b) =>
      var r := Eval(a, st);
      if r.outcome.Normal? then Eval(b, r.st) else r
    case If(a, b) =>
      if Bit(st) then Eval(a, Consume(st)) else Eval(b, Consume(st))
    case While(body) =>
      if !Bit(st) then Result(Normal, Consume(st)) else
      var r := Eval(body, Consume(st));
      if r.outcome.Normal? then Eval(s, r.st) else r
    case Call(body) =>
      var r := Eval(body, st);
      if r.outcome.Returned? then Result(Normal, r.st) else r
    case TryCatch(body, handler) =>
      var r := Eval(body, st);
      if r.outcome.Thrown? then Eval(handler, r.st) else r
    case TryFinally(body, cleanup) =>
      var r := Eval(body, st);
      var f := Eval(cleanup, r.st);
      if !f.outcome.Normal? then f
      else if r.outcome.Thrown? then Result(Thrown(true), f.st)
      else Result(r.outcome, f.st)
  }

  // ---------------------------------------------------------------- the macros

  datatype Ending = Fell | Raised(rethrown: bool) | Left | Undefined

  /** kept: the global pointer has its entry value again; otherwise it holds the
      address of a jump buffer whose frame is gone. */
  datatype Actuality = Actuality(ending: Ending, st: Store, kept: bool)

  /** What the macros do, for every program.  dangling says whether the global
      pointer is dangling at entry.  A jump through a dangling pointer is
      Undefined; a return out of a try body skips the finally block and leaves
      the pointer dangling. */
  function Actual(s: Stmt, st: Store, dangling: bool): (r: Actuality)
    ensures |r.st.inp| <= |st.inp|
    ensures r.ending.Raised? ==> r.kept && !dangling
    decreases |st.inp|, s
  {
    match s
    case Skip => Actuality(Fell, st, true)
    case Emit(n) => Actuality(Fell, st.(out := st.out + [n]), true)
    case Throw => Actuality(if dangling then Undefined else Raised(false), st, true)
    case Return => Actuality(Left, st, true)
    case Seq(a, b) =>
      var r := Actual(a, st, dangling);
      if r.ending.Fell? then After(r, Actual(b, r.st, dangling || !r.kept)) else r
    case If(a, b) =>
      if Bit(st) then Actual(a, Consume(st), dangling) else Actual(b, Consume(st), dangling)
    case While(body) =>
      if !Bit(st) then Actuality(Fell, Consume(st), true) else
      var r := Actual(body, Consume(st), dangling);
      if r.ending.Fell? then After(r, Actual(s, r.st, dangling || !r.kept)) else r
    case Call(body) =>
      var r := Actual(body, st, dangling);
      if r.ending.Left? then r.(ending := Fell) else r
    case TryCatch(body, handler) =>
      var r := Actual(body, st, false);
      if r.ending.Fell? then r.(kept := true)
      else if r.ending.Left? then r.(kept := false)
      else if r.ending.Undefined? then r
      else
        var h := Actual(handler, r.st, dangling);
        if h.ending.Fell? then h.(kept := true) else h
    case TryFinally(body, cleanup) =>
      var r := Actual(body, st, false);
      if r.ending.Left? then r.(kept := false)
      else if r.ending.Undefined? then r
      else
        var f := Actual(cleanup, r.st, dangling);
        if !f.ending.Fell? then f
        else if r.ending.Fell? then f.(kept := true)
        else f.(ending := if dangling || !f.kept then Undefined else Raised(true))
  }

  function After(first: Actuality, second: Actuality): (r: Actuality) {
    second.(kept := first.kept && second.kept)
  }

  // ------------------------------------------------------- when the two agree

  /** No Return that would leave the frame s runs in. */
  predicate ReturnFree(s: Stmt) {
    match s
    case Return => false
    case Seq(a, b) => ReturnFree(a) && ReturnFree(b)
    case If(a, b) => ReturnFree(a) && ReturnFree(b)
    case While(a) => ReturnFree(a)
    case TryCatch(a, b) => ReturnFree(a) && ReturnFree(b)
    case TryFinally(a, b) => ReturnFree(a) && ReturnFree(b)
    case _ => true
  }

  /** No Return inside a try body; handlers and finally blocks may return. */
  predicate Disciplined(s: Stmt) {
    match s
    case Seq(a, b) => Disciplined(a) && Disciplined(b)
    case If(a, b) => Disciplined(a) && Disciplined(b)
    case While(a) => Disciplined(a)
    case Call(a) => Disciplined(a)
    case TryCatch(a, b) => ReturnFree(a) && Disciplined(a) && Disciplined(b)
    case TryFinally(a, b) => ReturnFree(a) && Disciplined(a) && Disciplined(b)
    case _ => true
  }

  function Ideal(r: Result): Actuality {
    Actuality(
      match r.outcome
      case Normal => Fell
      case Thrown(re) => Raised(re)
      case Returned => Left,
      r.st, true)
  }

  lemma {:induction false} ReturnFreeNeverReturns(s: Stmt, st: Store)
    requires ReturnFree(s)
    ensures !Eval(s, st).outcome.Returned?
    decreases |st.inp|, s
  {
    match s
    case Seq(a, b) =>
      ReturnFreeNeverReturns(a, st);
      ReturnFreeNeverReturns(b, Eval(a, st).st);
    case If(a, b) =>
      ReturnFreeNeverReturns(if Bit(st) then a else b, Consume(st));
    case While(a) =>
      if Bit(st) {
        ReturnFreeNeverReturns(a, Consume(st));
        ReturnFreeNeverReturns(s, Eval(a, Consume(st)).st);
      }
    case TryCatch(a, b) =>
      ReturnFreeNeverReturns(a, st);
      ReturnFreeNeverReturns(b, Eval(a, st).st);
    case TryFinally(a, b) =>
      ReturnFreeNeverReturns(a, st);
      ReturnFreeNeverReturns(b, Eval(a, st).st);
    case _ =>
  }

  /** In the run of s from st no return leaves a try body; programs may hold such
      returns as long as the run does not come to them. */
  predicate NoEscape(s: Stmt, st: Store)
    decreases |st.inp|, s
  {
    match s
    case Seq(a, b) =>
      NoEscape(a, st) && (Eval(a, st).outcome.Normal? ==> NoEscape(b, Eval(a, st).st))
    case If(a, b) =>
      if Bit(st) then NoEscape(a, Consume(st)) else NoEscape(b, Consume(st))
    case While(a) =>
      Bit(st) ==>
        && NoEscape(a, Consume(st))
        && (Eval(a, Consume(st)).outcome.Normal? ==> NoEscape(s, Eval(a, Consume(st)).st))
    case Call(a) => NoEscape(a, st)
    case TryCatch(a, b) =>
      && NoEscape(a, st) && !Eval(a, st).outcome.Returned?
      && (Eval(a, st).outcome.Thrown? ==> NoEscape(b, Eval(a, st).st))
    case TryFinally(a, b) =>
      NoEscape(a, st) && !Eval(a, st).outcome.Returned? && NoEscape(b, Eval(a, st).st)
    case _ => true
  }

  /** A run without such a return is structured exceptions exactly, never meets
      undefined behaviour and restores the pointer. */
  lemma {:induction false} NoEscapeIsStructured(s: Stmt, st: Store)
    requires NoEscape(s, st)
    ensures Actual(s, st, false) == Ideal(Eval(s, st))
    decreases |st.inp|, s
  {
    match s
    case Seq(a, b) =>
      NoEscapeIsStructured(a, st);
      if Eval(a, st).outcome.Normal? { NoEscapeIsStructured(b, Eval(a, st).st); }
    case If(a, b) =>
      NoEscapeIsStructured(if Bit(st) then a else b, Consume(st));
    case While(a) =>
      if Bit(st) {
        NoEscapeIsStructured(a, Consume(st));
        if Eval(a, Consume(st)).outcome.Normal? { NoEscapeIsStructured(s, Eval(a, Consume(st)).st); }
      }
    case Call(a) =>
      NoEscapeIsStructured(a, st);
    case TryCatch(a, b) =>
      NoEscapeIsStructured(a, st);
      if Eval(a, st).outcome.Thrown? { NoEscapeIsStructured(b, Eval(a, st).st); }
    case TryFinally(a, b) =>
      NoEscapeIsStructured(a, st);
      NoEscapeIsStructured(b, Eval(a, st).st);
    case _ =>
  }

  /** When the body and the handler keep to the rule themselves, the macro does what
      a try statement should if and only if the body does not return. */
  lemma CatchExactly(a: Stmt, b: Stmt, st: Store)
    requires NoEscape(a, st) && (Eval(a, st).outcome.Thrown? ==> NoEscape(b, Eval(a, st).st))
    ensures Actual(TryCatch(a, b), st, false) == Ideal(Eval(TryCatch(a, b), st))
       <==> !Eval(a, st).outcome.Returned?
  {
    if Eval(a, st).outcome.Returned? {
      NoEscapeIsStructured(a, st);
      assert !Actual(TryCatch(a, b), st, false).kept;
    } else {
      NoEscapeIsStructured(TryCatch(a, b), st);
    }
  }

  lemma FinallyExactly(a: Stmt, b: Stmt, st: Store)
    requires NoEscape(a, st) && NoEscape(b, Eval(a, st).st)
    ensures Actual(TryFinally(a, b), st, false) == Ideal(Eval(TryFinally(a, b), st))
       <==> !Eval(a, st).outcome.Returned?
  {
    if Eval(a, st).outcome.Returned? {
      NoEscapeIsStructured(a, st);
      assert !Actual(TryFinally(a, b), st, false).kept;
    } else {
      NoEscapeIsStructured(TryFinally(a, b), st);
    }
  }

  /** The rule in the comments is enough, whatever the input. */
  lemma {:induction false} DisciplinedNeverEscapes(s: Stmt, st: Store)
    requires Disciplined(s)
    ensures NoEscape(s, st)
    decreases |st.inp|, s
  {
    match s
    case Seq(a, b) =>
      DisciplinedNeverEscapes(a, st);
      DisciplinedNeverEscapes(b, Eval(a, st).st);
    case If(a, b) =>
      DisciplinedNeverEscapes(if Bit(st) then a else b, Consume(st));
    case While(a) =>
      if Bit(st) {
        DisciplinedNeverEscapes(a, Consume(st));
        DisciplinedNeverEscapes(s, Eval(a, Consume(st)).st);
      }
    case Call(a) =>
      DisciplinedNeverEscapes(a, st);
    case TryCatch(a, b) =>
      ReturnFreeNeverReturns(a, st);
      DisciplinedNeverEscapes(a, st);
      DisciplinedNeverEscapes(b, Eval(a, st).st);
    case TryFinally(a, b) =>
      ReturnFreeNeverReturns(a, st);
      DisciplinedNeverEscapes(a, st);
      DisciplinedNeverEscapes(b, Eval(a, st).st);
    case _ =>
  }

  /** For a disciplined program the macros implement structured exceptions
      exactly, never meet undefined behaviour and restore the pointer. */
  lemma DisciplinedIsStructured(s: Stmt, st: Store)
    requires Disciplined(s)
    ensures Actual(s, st, false) == Ideal(Eval(s, st))
  {
    DisciplinedNeverEscapes(s, st);
    NoEscapeIsStructured(s, st);
  }
}
