/** The macros expanded, and a machine that runs the expansion. */
module JumpMachine {
  import opened Wrappers

  import opened TryLanguage

  /** C after macro expansion.  Block opens the do { ... } while (0) that declares
      the three macro locals; the other new forms are the macros' own statements
      about those locals. */
  datatype Code =
    | Nop
    | Print(n: int)
    | DoAJump
    | Ret
    | Then(first: Code, second: Code)
    | Branch(thn: Code, els: Code)
    | Loop(body: Code)
    | CallFn(body: Code)
    | Block(body: Code)
    | Setjmp(zero: Code, nonzero: Code)
    | Install
    | Restore
    | MarkRethrow
    | RethrowIfMarked

  function Expand(s: Stmt): Code {
    match s
    case Skip => Nop
    case Emit(n) => Print(n)
    case Throw => DoAJump
    case Return => Ret
    case Seq(a, b) => Then(Expand(a), Expand(b))
    case If(a, b) => Branch(Expand(a), Expand(b))
    case While(a) => Loop(Expand(a))
    case Call(a) => CallFn(Expand(a))
    case TryCatch(a, b) =>
      Block(Then(Setjmp(Then(Install, Expand(a)), Then(Restore, Expand(b))), EndTry()))
    case TryFinally(a, b) =>
      Block(Then(Setjmp(Then(Install, Expand(a)), MarkRethrow),
                 Then(Then(Restore, Expand(b)), EndTry())))
  }

  function EndTry(): Code {
    Then(RethrowIfMarked, Restore)
  }

  /** The control stack: pending code, open blocks, and call frames. */
  datatype Kont =
    | Halt
    | Do(code: Code, rest: Kont)
    | EndBlock(id: nat, rest: Kont)
    | EndCall(rest: Kont)

  /** One activation of the macro block: _save_exception_stack, the jump buffer
      (where a nonzero return of sigsetjmp continues) and _do_rethrow. */
  datatype Locals = Locals(save: Option<nat>, buf: Option<Kont>, rethrow: bool)

  datatype Verdict = Completed | NullJump | ErrorExit | DanglingJump | Malformed

  /** es is TEST_exception_stack: null or the activation whose buffer it points
      to; next is the number the next activation gets. */
  datatype Machine = Machine(k: Kont, es: Option<nat>, mem: map<nat, Locals>, next: nat, st: Store)

  datatype Config =
    | Running(m: Machine)
    | Final(verdict: Verdict, es: Option<nat>, st: Store)

  /** Activations whose block is still open in a frame of the stack. */
  function Live(k: Kont): set<nat> {
    match k
    case Halt => {}
    case Do(_, r) => Live(r)
    case EndBlock(id, r) => {id} + Live(r)
    case EndCall(r) => Live(r)
  }

  /** The macro locals in scope: the innermost open block of the current function. */
  function Scope(k: Kont): Option<nat> {
    match k
    case Do(_, r) => Scope(r)
    case EndBlock(id, _) => Some(id)
    case _ => None
  }

  /** The caller's continuation: every block of the returning frame is gone. */
  function AfterReturn(k: Kont): Kont {
    match k
    case Halt => Halt
    case Do(_, r) => AfterReturn(r)
    case EndBlock(_, r) => AfterReturn(r)
    case EndCall(r) => r
  }

  /** siglongjmp through the global pointer. */
  function Jump(m: Machine, rethrow: bool): Config {
    if m.es.None? then Final(if rethrow then ErrorExit else NullJump, m.es, m.st)
    else if m.es.value in Live(m.k) && m.es.value in m.mem && m.mem[m.es.value].buf.Some? then
      Running(m.(k := m.mem[m.es.value].buf.value))
    else Final(DanglingJump, m.es, m.st)
  }

  function Step(c: Config): Config {
    if c.Final? then c else
    var m := c.m;
    match m.k
    case Halt => Final(Completed, m.es, m.st)
    case EndBlock(_, r) => Running(m.(k := r))
    case EndCall(r) => Running(m.(k := r))
    case Do(code, r) => Execute(code, m.(k := r))
  }

  function Execute(code: Code, m: Machine): Config {
    match code
    case Nop => Running(m)
    case Print(n) => Running(m.(st := m.st.(out := m.st.out + [n])))
    case DoAJump => Jump(m, false)
    case Ret => Running(m.(k := AfterReturn(m.k)))
    case Then(a, b) => Running(m.(k := Do(a, Do(b, m.k))))
    case Branch(a, b) => Running(m.(k := Do(if Bit(m.st) then a else b, m.k), st := Consume(m.st)))
    case Loop(a) =>
      Running(m.(k := if Bit(m.st) then Do(a, Do(code, m.k)) else m.k, st := Consume(m.st)))
    case CallFn(a) => Running(m.(k := Do(a, EndCall(m.k))))
    case Block(a) =>
      Running(m.(k := Do(a, EndBlock(m.next, m.k)),
                 mem := m.mem[m.next := Locals(m.es, None, false)],
                 next := m.next + 1))
    case _ =>
      var scope := Scope(m.k);
      if scope.None? || scope.value !in m.mem then Final(Malformed, m.es, m.st)
      else ExecuteLocal(code, m, scope.value)
  }

  /** The statements that read or write the locals of the enclosing block. */
  function ExecuteLocal(code: Code, m: Machine, id: nat): Config
    requires id in m.mem
  {
    var l := m.mem[id];
    match code
    case Setjmp(zero, nonzero) =>
      Running(m.(k := Do(zero, m.k), mem := m.mem[id := l.(buf := Some(Do(nonzero, m.k)))]))
    case Install => Running(m.(es := Some(id)))
    case Restore => Running(m.(es := l.save))
    case MarkRethrow => Running(m.(mem := m.mem[id := l.(rethrow := true)]))
    case RethrowIfMarked => if l.rethrow then Jump(m, true) else Running(m)
    case _ => Final(Malformed, m.es, m.st)
  }

  function StepN(c: Config, n: nat): Config
    decreases n
  {
    if n == 0 then c else StepN(Step(c), n - 1)
  }

  ghost predicate Reaches(a: Config, b: Config) {
    exists n: nat :: StepN(a, n) == b
  }
}
