/** yield by throwing and running the statement again, against a coroutine that keeps its continuation.

    A yield leaves by an exception and marks itself as the paused one; next and return run the whole statement
    again, and the marked yield answers with the sent value. The reference is a coroutine that suspends with the
    rest of the statement in hand and evaluates nothing twice. Both work on variables they share with the rest of the
    program: a call may assign them, and so may anything that runs between two requests. */
module Generators {
  import opened Wrappers

  datatype Value = Undefined | Number(n: int) | Text(s: string)

  type Env = map<string, Value>
  type YieldId = nat

  datatype Expr =
    | Lit(v: Value)
    | Var(name: string)
    | Call(f: nat, arg: Expr)
    | Binary(op: string, left: Expr, right: Expr)
    | Yield(id: YieldId, operand: Expr)

  datatype Stmt = Evaluate(e: Expr) | Assign(name: string, e: Expr) | Return(e: Expr)

  /** What calls and operators compute, and when a short-circuiting operator stops at its left operand. A call reads
      and assigns the variables as it likes, and is logged each time it happens. Operators are pure. */
  datatype Meaning = Meaning(
    call: (Env, nat, Value) -> (Env, Result<Value>),
    binary: (string, Value, Value) -> Result<Value>,
    stops: (string, Value) -> bool)

  type Log = seq<nat>

  function After(s: Stmt, env: Env, v: Value): Env {
    if s.Assign? then env[s.name := v] else env
  }

  // ---------- the interpreter: throw and run again ----------

  /** The generator fields of a call frame: the paused yield and what next or return left for it. */
  datatype Slots = Slots(paused: Option<YieldId>, sent: Option<Value>, requestedReturn: Option<Value>)

  datatype Outcome = Done(v: Value) | Threw(message: string) | Yielded(v: Value) | Returned(v: Value)

  datatype RunResult = RunResult(outcome: Outcome, slots: Slots, env: Env, log: Log)

  function Raise(r: Result<Value>): Outcome {
    match r
    case Ok(v) => Done(v)
    case Err(e) => Threw(e)
  }

  function Run(e: Expr, m: Meaning, env: Env, slots: Slots): RunResult {
    match e
    case Lit(v) => RunResult(Done(v), slots, env, [])
    case Var(x) => RunResult(if x in env then Done(env[x]) else Threw("ReferenceError"), slots, env, [])
    case Call(f, arg) =>
      var a := Run(arg, m, env, slots);
      if a.outcome.Done? then
        var c := m.call(a.env, f, a.outcome.v);
        RunResult(Raise(c.1), a.slots, c.0, a.log + [f])
      else a
    case Binary(op, left, right) =>
      var l := Run(left, m, env, slots);
      if !l.outcome.Done? || m.stops(op, l.outcome.v) then l
      else
        var r := Run(right, m, l.env, l.slots);
        RunResult(if r.outcome.Done? then Raise(m.binary(op, l.outcome.v, r.outcome.v)) else r.outcome,
                  r.slots, r.env, l.log + r.log)
    case Yield(id, operand) =>
      if slots.paused == Some(id) then
        if slots.requestedReturn.Some?
        then RunResult(Returned(slots.requestedReturn.value), Slots(None, slots.sent, None), env, [])
        else RunResult(Done(if slots.sent.Some? then slots.sent.value else Undefined), Slots(None, None, None), env, [])
      else
        var o := Run(operand, m, env, slots);
        if o.outcome.Done? then RunResult(Yielded(o.outcome.v), o.slots.(paused := Some(id)), o.env, o.log) else o
  }

  datatype State = SuspendedStart | SuspendedYield | Executing | Completed

  datatype Generator = Generator(state: State, isDone: bool, index: nat, slots: Slots)

  /** What the caller of next or return gets; Failed is an exception that escapes to it. */
  datatype Reply = Reply(value: Value, done: bool) | Failed(message: string)

  datatype Answer = Answer(g: Generator, reply: Reply, env: Env, log: Log)

  /** Where the loop leaves when a statement does not come out normally, or is a return. */
  function Leaves(g: Generator, r: RunResult): Answer {
    match r.outcome
    case Yielded(v) => Answer(g.(state := SuspendedYield, slots := r.slots), Reply(v, false), r.env, r.log)
    case Returned(v) =>
      Answer(g.(state := Completed, isDone := true, slots := Slots(None, r.slots.sent, None)), Reply(v, true), r.env,
             r.log)
    case Threw(e) => Answer(g.(state := Completed, isDone := true, slots := r.slots), Failed(e), r.env, r.log)
    case Done(v) =>
      Answer(g.(state := Completed, isDone := true, index := g.index + 1, slots := r.slots), Reply(v, true), r.env,
             r.log)
  }

  /** execute_frame_until_yield_or_return, with what resume_generator does at its end. */
  function Execute(body: seq<Stmt>, m: Meaning, g: Generator, env: Env): Answer
    requires g.index <= |body|
    decreases |body| - g.index
  {
    if g.index == |body| then Answer(g.(state := Completed, isDone := true), Reply(Undefined, true), env, [])
    else
      var s := body[g.index];
      var r := Run(s.e, m, env, g.slots);
      if r.outcome.Done? && !s.Return? then
        var a := Execute(body, m, g.(index := g.index + 1, slots := r.slots), After(s, r.env, r.outcome.v));
        Answer(a.g, a.reply, a.env, r.log + a.log)
      else Leaves(g, r)
  }

  /** One turn of that loop. */
  lemma ExecuteOnce(body: seq<Stmt>, m: Meaning, g: Generator, env: Env)
    requires g.index < |body|
    ensures var s := body[g.index];
            var r := Run(s.e, m, env, g.slots);
            Same(Execute(body, m, g, env),
                 if r.outcome.Done? && !s.Return?
                 then Execute(body, m, g.(index := g.index + 1, slots := r.slots), After(s, r.env, r.outcome.v))
                 else Leaves(g, r))
  {
  }

  /** The slots resume_generator fills for next(arg) or return(arg). */
  function Prepared(g: Generator, arg: Value, isReturn: bool): Slots {
    if g.state == SuspendedStart then Slots(g.slots.paused, None, None)
    else if isReturn then Slots(g.slots.paused, None, Some(arg))
    else Slots(g.slots.paused, Some(arg), None)
  }

  /** resume_generator: next(arg), or return(arg), with the variables as they stand by then. */
  function Resume(body: seq<Stmt>, m: Meaning, g: Generator, env: Env, arg: Value, isReturn: bool): Answer
    requires g.index <= |body|
  {
    if g.isDone then Answer(g, Reply(Undefined, true), env, [])
    else if g.state == SuspendedStart && isReturn then
      Answer(g.(state := Completed, isDone := true), Reply(arg, true), env, [])
    else Execute(body, m, g.(state := Executing, slots := Prepared(g, arg, isReturn)), env)
  }

  // ---------- the reference: a coroutine with its continuation ----------

  /** The rest of a statement around the yield it is suspended at. */
  datatype Kont =
    | Hole
    | InCall(f: nat, k: Kont)
    | InLeft(op: string, k: Kont, right: Expr)
    | InRight(op: string, left: Value, k: Kont)
    | InYield(k: Kont)

  datatype Co =
    | CoDone(v: Value, env: Env, log: Log)
    | CoThrew(message: string, env: Env, log: Log)
    | CoYield(v: Value, k: Kont, env: Env, log: Log)

  function CoRaise(r: Result<Value>, env: Env, log: Log): Co {
    match r
    case Ok(v) => CoDone(v, env, log)
    case Err(e) => CoThrew(e, env, log)
  }

  function Logged(c: Co, log: Log): Co {
    c.(log := log + c.log)
  }

  function CallWith(f: nat, m: Meaning, a: Co): Co {
    match a
    case CoDone(v, env, log) => var c := m.call(env, f, v); CoRaise(c.1, c.0, log + [f])
    case CoThrew(_, _, _) => a
    case CoYield(v, k, env, log) => CoYield(v, InCall(f, k), env, log)
  }

  function RightWith(op: string, left: Value, m: Meaning, r: Co): Co {
    match r
    case CoDone(v, env, log) => CoRaise(m.binary(op, left, v), env, log)
    case CoThrew(_, _, _) => r
    case CoYield(v, k, env, log) => CoYield(v, InRight(op, left, k), env, log)
  }

  function Eval(e: Expr, m: Meaning, env: Env): Co
    decreases e, 1
  {
    match e
    case Lit(v) => CoDone(v, env, [])
    case Var(x) => if x in env then CoDone(env[x], env, []) else CoThrew("ReferenceError", env, [])
    case Call(f, arg) => CallWith(f, m, Eval(arg, m, env))
    case Binary(op, left, right) => LeftWith(op, right, m, Eval(left, m, env))
    case Yield(_, operand) => YieldWith(Eval(operand, m, env))
  }

  function LeftWith(op: string, right: Expr, m: Meaning, l: Co): Co
    decreases right, 2
  {
    match l
    case CoDone(v, env, log) =>
      if m.stops(op, v) then l else Logged(RightWith(op, v, m, Eval(right, m, env)), log)
    case CoThrew(_, _, _) => l
    case CoYield(v, k, env, log) => CoYield(v, InLeft(op, k, right), env, log)
  }

  function YieldWith(o: Co): Co {
    match o
    case CoDone(v, env, log) => CoYield(v, Hole, env, log)
    case CoThrew(_, _, _) => o
    case CoYield(v, k, env, log) => CoYield(v, InYield(k), env, log)
  }

  /** Puts the sent value where the yield stood and goes on from there, with the variables of now. */
  function Continue(k: Kont, m: Meaning, env: Env, sent: Value): Co {
    match k
    case Hole => CoDone(sent, env, [])
    case InCall(f, k1) => CallWith(f, m, Continue(k1, m, env, sent))
    case InLeft(op, k1, right) => LeftWith(op, right, m, Continue(k1, m, env, sent))
    case InRight(op, left, k1) => RightWith(op, left, m, Continue(k1, m, env, sent))
    case InYield(k1) => YieldWith(Continue(k1, m, env, sent))
  }

  datatype Coroutine = Unstarted | Waiting(index: nat, k: Kont) | Finished

  datatype CoAnswer = CoAnswer(c: Coroutine, reply: Reply, env: Env, log: Log)

  /** Acts on how statement index came out. */
  function Proceed(body: seq<Stmt>, m: Meaning, index: nat, c: Co): CoAnswer
    requires index < |body|
    decreases |body| - index, 0
  {
    match c
    case CoYield(v, k, env, log) => CoAnswer(Waiting(index, k), Reply(v, false), env, log)
    case CoThrew(e, env, log) => CoAnswer(Finished, Failed(e), env, log)
    case CoDone(v, env, log) =>
      if body[index].Return? then CoAnswer(Finished, Reply(v, true), env, log)
      else
        var a := CoExecute(body, m, index + 1, After(body[index], env, v));
        CoAnswer(a.c, a.reply, a.env, log + a.log)
  }

  function CoExecute(body: seq<Stmt>, m: Meaning, index: nat, env: Env): CoAnswer
    requires index <= |body|
    decreases |body| - index, 1
  {
    if index == |body| then CoAnswer(Finished, Reply(Undefined, true), env, [])
    else Proceed(body, m, index, Eval(body[index].e, m, env))
  }

  function CoResume(body: seq<Stmt>, m: Meaning, c: Coroutine, env: Env, arg: Value, isReturn: bool): CoAnswer
    requires c.Waiting? ==> c.index < |body|
  {
    match c
    case Finished => CoAnswer(Finished, Reply(Undefined, true), env, [])
    case Unstarted => if isReturn then CoAnswer(Finished, Reply(arg, true), env, []) else CoExecute(body, m, 0, env)
    case Waiting(index, k) =>
      if isReturn then CoAnswer(Finished, Reply(arg, true), env, [])
      else Proceed(body, m, index, Continue(k, m, env, arg))
  }

  // ---------- the statements for which the two agree ----------

  predicate HasYield(e: Expr) {
    match e
    case Lit(_) => false
    case Var(_) => false
    case Call(_, arg) => HasYield(arg)
    case Binary(_, left, right) => HasYield(left) || HasYield(right)
    case Yield(_, _) => true
  }

  /** Literals, and operators on literals: what has the same value whenever it is evaluated. */
  predicate Constant(e: Expr) {
    match e
    case Lit(_) => true
    case Binary(_, left, right) => Constant(left) && Constant(right)
    case _ => false
  }

  function YieldIds(e: Expr): set<YieldId> {
    match e
    case Lit(_) => {}
    case Var(_) => {}
    case Call(_, arg) => YieldIds(arg)
    case Binary(_, left, right) => YieldIds(left) + YieldIds(right)
    case Yield(id, operand) => {id} + YieldIds(operand)
  }

  /** The parser gives every yield its own id. */
  predicate DistinctYields(e: Expr) {
    match e
    case Lit(_) => true
    case Var(_) => true
    case Call(_, arg) => DistinctYields(arg)
    case Binary(_, left, right) => DistinctYields(left) && DistinctYields(right) && YieldIds(left) !! YieldIds(right)
    case Yield(id, operand) => DistinctYields(operand) && id !in YieldIds(operand)
  }

  /** No two yields stand side by side; one may stand inside the operand of another. */
  predicate Single(e: Expr) {
    match e
    case Lit(_) => true
    case Var(_) => true
    case Call(_, arg) => Single(arg)
    case Binary(_, left, right) => !(HasYield(left) && HasYield(right)) && Single(left) && Single(right)
    case Yield(_, operand) => Single(operand)
  }

  /** No two yields side by side, and nothing but constants to the left of one under the same operator. */
  predicate Restartable(e: Expr) {
    match e
    case Lit(_) => true
    case Var(_) => true
    case Call(_, arg) => Restartable(arg)
    case Binary(_, left, right) => if HasYield(right) then Constant(left) && Restartable(right) else Restartable(left)
    case Yield(_, operand) => Restartable(operand)
  }

  predicate GoodStatement(s: Stmt) {
    Restartable(s.e) && DistinctYields(s.e)
  }

  lemma {:induction false} NoYield(e: Expr)
    requires !HasYield(e)
    ensures YieldIds(e) == {} && Restartable(e) && Single(e)
  {
    match e
    case Lit(_) =>
    case Var(_) =>
    case Call(_, arg) => NoYield(arg);
    case Binary(_, left, right) =>
      NoYield(left);
      NoYield(right);
  }

  lemma {:induction false} ConstantHasNoYield(e: Expr)
    requires Constant(e)
    ensures !HasYield(e)
  {
    match e
    case Lit(_) =>
    case Binary(_, left, right) =>
      ConstantHasNoYield(left);
      ConstantHasNoYield(right);
  }

  lemma {:induction false} RestartableIsSingle(e: Expr)
    requires Restartable(e)
    ensures Single(e)
  {
    match e
    case Lit(_) =>
    case Var(_) =>
    case Call(_, arg) => RestartableIsSingle(arg);
    case Yield(_, operand) => RestartableIsSingle(operand);
    case Binary(_, left, right) =>
      if HasYield(right) {
        ConstantHasNoYield(left);
        NoYield(left);
        RestartableIsSingle(right);
      } else {
        NoYield(right);
        RestartableIsSingle(left);
      }
  }

  function AsOutcome(c: Co): Outcome {
    match c
    case CoDone(v, _, _) => Done(v)
    case CoThrew(e, _, _) => Threw(e)
    case CoYield(v, _, _, _) => Yielded(v)
  }

  /** The run came out as the coroutine's evaluation did: value, variables and calls. */
  predicate ComesOut(r: RunResult, c: Co) {
    r.outcome == AsOutcome(c) && r.env == c.env && r.log == c.log
  }

  /** Without a yield in it an expression ignores the slots and evaluates as the coroutine does. */
  lemma {:induction false} RunWithoutYield(e: Expr, m: Meaning, env: Env, slots: Slots)
    requires !HasYield(e)
    ensures !Eval(e, m, env).CoYield?
    ensures Run(e, m, env, slots).slots == slots && ComesOut(Run(e, m, env, slots), Eval(e, m, env))
  {
    match e
    case Lit(_) =>
    case Var(_) =>
    case Call(_, arg) => RunWithoutYield(arg, m, env, slots);
    case Binary(_, left, right) =>
      RunWithoutYield(left, m, env, slots);
      var l := Eval(left, m, env);
      if l.CoDone? { RunWithoutYield(right, m, l.env, slots); }
  }

  /** A constant comes out the same whatever the variables, and calls nothing. */
  lemma {:induction false} ConstantAnywhere(e: Expr, m: Meaning, env: Env)
    requires Constant(e)
    ensures !Eval(e, m, env).CoYield? && Eval(e, m, env).env == env && Eval(e, m, env).log == []
    ensures Eval(e, m, env) == Eval(e, m, map[]).(env := env)
  {
    match e
    case Lit(_) =>
    case Binary(_, left, right) =>
      ConstantAnywhere(left, m, env);
      ConstantAnywhere(right, m, env);
      ConstantAnywhere(left, m, map[]);
      ConstantAnywhere(right, m, map[]);
  }

  /** The continuation k stands at the yield id. A value it holds for a constant is the value of that constant. */
  ghost predicate PausedAt(e: Expr, m: Meaning, id: YieldId, k: Kont) {
    match e
    case Lit(_) => false
    case Var(_) => false
    case Call(f, arg) => k.InCall? && k.f == f && PausedAt(arg, m, id, k.k)
    case Binary(op, left, right) =>
      if HasYield(right) then
        && k.InRight? && k.op == op && PausedAt(right, m, id, k.k)
        && (Constant(left) ==> Eval(left, m, map[]) == CoDone(k.left, map[], []) && !m.stops(op, k.left))
      else k.InLeft? && k.op == op && k.right == right && PausedAt(left, m, id, k.k)
    case Yield(i, operand) => if id == i then k == Hole else k.InYield? && PausedAt(operand, m, id, k.k)
  }

  /** The slots hold the yield that c stands at; if it stands at none they hold none. */
  ghost predicate Marks(e: Expr, m: Meaning, c: Co, slots: Slots) {
    if c.CoYield? then
      && slots.paused.Some? && slots.paused.value in YieldIds(e)
      && PausedAt(e, m, slots.paused.value, c.k)
    else slots.paused == None
  }

  /** The first run: both stop at the same yield with the same value, and the interpreter has marked it. */
  lemma {:induction false} FirstRun(e: Expr, m: Meaning, env: Env, slots: Slots)
    requires Single(e) && DistinctYields(e) && slots.paused == None
    ensures var r, c := Run(e, m, env, slots), Eval(e, m, env);
            && ComesOut(r, c) && (c.CoYield? ==> HasYield(e))
            && Marks(e, m, c, r.slots) && r.slots == slots.(paused := r.slots.paused)
  {
    match e
    case Lit(_) =>
    case Var(_) =>
    case Call(_, arg) => FirstRun(arg, m, env, slots);
    case Yield(_, operand) => FirstRun(operand, m, env, slots);
    case Binary(_, left, right) =>
      var l := Eval(left, m, env);
      if HasYield(right) {
        if l.CoDone? { FirstRun(right, m, l.env, slots); }
        FirstRight(e, m, env, slots);
      } else {
        FirstRun(left, m, env, slots);
        LeftComesOut(e, m, env, slots, l);
        MarksLeft(e, m, l, Run(left, m, env, slots).slots);
        hide LeftWith, Marks, DistinctYields, Single;
      }
  }

  lemma FirstRight(e: Expr, m: Meaning, env: Env, slots: Slots)
    requires e.Binary? && HasYield(e.right) && !HasYield(e.left) && slots.paused == None
    requires var l := Eval(e.left, m, env);
             l.CoDone? ==>
               var r, c := Run(e.right, m, l.env, slots), Eval(e.right, m, l.env);
               ComesOut(r, c) && Marks(e.right, m, c, r.slots) && r.slots == slots.(paused := r.slots.paused)
    ensures var r, c := Run(e, m, env, slots), Eval(e, m, env);
            ComesOut(r, c) && Marks(e, m, c, r.slots) && r.slots == slots.(paused := r.slots.paused)
  {
    RunWithoutYield(e.left, m, env, slots);
    var l := Eval(e.left, m, env);
    if l.CoDone? && !m.stops(e.op, l.v) {
      var c := Eval(e.right, m, l.env);
      RightComesOut(e, m, env, slots, l, c);
      MarksRight(e, m, env, l, c, l.log, Run(e.right, m, l.env, slots).slots);
      hide RightWith, Marks;
    }
  }

  // ---------- what a re-run does ----------

  /** A re-run on its way back: at the paused yield, with the rest of the statement as it is by now; or somewhere else,
      because something to the left of that yield threw or stopped short this time. */
  datatype Back = AtYield(k: Kont, env: Env, log: Log) | Astray(c: Co)

  /** Everything to the left of the yield id, evaluated with the variables of now. */
  function GoBack(e: Expr, m: Meaning, env: Env, id: YieldId): Back {
    match e
    case Lit(_) => Astray(Eval(e, m, env))
    case Var(_) => Astray(Eval(e, m, env))
    case Call(f, arg) =>
      (match GoBack(arg, m, env, id)
       case AtYield(k, env1, log) => AtYield(InCall(f, k), env1, log)
       case Astray(c) => Astray(CallWith(f, m, c)))
    case Yield(i, operand) =>
      if i == id then AtYield(Hole, env, [])
      else
        (match GoBack(operand, m, env, id)
         case AtYield(k, env1, log) => AtYield(InYield(k), env1, log)
         case Astray(c) => Astray(YieldWith(c)))
    case Binary(op, left, right) =>
      if HasYield(right) then
        var l := Eval(left, m, env);
        if !l.CoDone? || m.stops(op, l.v) then Astray(l)
        else
          (match GoBack(right, m, l.env, id)
           case AtYield(k, env1, log) => AtYield(InRight(op, l.v, k), env1, l.log + log)
           case Astray(c) => Astray(Logged(RightWith(op, l.v, m, c), l.log)))
      else
        (match GoBack(left, m, env, id)
         case AtYield(k, env1, log) => AtYield(InLeft(op, k, right), env1, log)
         case Astray(c) => Astray(LeftWith(op, right, m, c)))
  }

  /** What a re-run must do: if it strays, that is all; at the yield it answers a return request at once, or goes on as
      a continuation standing there does, up to the next yield if there is one around this. */
  ghost predicate Answers(e: Expr, m: Meaning, env: Env, slots: Slots)
    requires slots.paused.Some?
  {
    var r := Run(e, m, env, slots);
    match GoBack(e, m, env, slots.paused.value)
    case Astray(c) => ComesOut(r, c) && r.slots == if c.CoYield? then slots.(paused := r.slots.paused) else slots
    case AtYield(k, env1, log) =>
      if slots.requestedReturn.Some? then
        r == RunResult(Returned(slots.requestedReturn.value), Slots(None, slots.sent, None), env1, log)
      else
        slots.sent.Some? ==>
          var c := Logged(Continue(k, m, env1, slots.sent.value), log);
          ComesOut(r, c) && Marks(e, m, c, r.slots) && r.slots.sent == None && r.slots.requestedReturn == None
  }

  lemma AnswersCall(e: Expr, m: Meaning, env: Env, slots: Slots)
    requires e.Call? && slots.paused.Some? && Answers(e.arg, m, env, slots)
    ensures Answers(e, m, env, slots)
  {
  }

  lemma AnswersYield(e: Expr, m: Meaning, env: Env, slots: Slots)
    requires e.Yield? && slots.paused.Some? && slots.paused.value != e.id && DistinctYields(e)
    requires Answers(e.operand, m, env, slots)
    ensures Answers(e, m, env, slots)
  {
  }

  lemma LeftLogged(op: string, right: Expr, m: Meaning, c: Co, log: Log)
    ensures LeftWith(op, right, m, Logged(c, log)) == Logged(LeftWith(op, right, m, c), log)
  {
    if c.CoDone? {
      var r := RightWith(op, c.v, m, Eval(right, m, c.env));
      assert log + c.log + r.log == log + (c.log + r.log);
    }
  }

  lemma RightLogged(op: string, left: Value, m: Meaning, c: Co, before: Log, log: Log)
    ensures Logged(RightWith(op, left, m, Logged(c, log)), before)
         == Logged(RightWith(op, left, m, c), before + log)
  {
    assert before + (log + c.log) == before + log + c.log;
  }

  /** How a binary goes on when its left operand has come out. */
  lemma LeftComesOut(e: Expr, m: Meaning, env: Env, slots: Slots, c: Co)
    requires e.Binary? && !HasYield(e.right) && ComesOut(Run(e.left, m, env, slots), c)
    ensures ComesOut(Run(e, m, env, slots), LeftWith(e.op, e.right, m, c))
    ensures Run(e, m, env, slots).slots == Run(e.left, m, env, slots).slots
    ensures LeftWith(e.op, e.right, m, c).CoYield? <==> c.CoYield?
    ensures c.CoYield? ==> LeftWith(e.op, e.right, m, c).k == InLeft(e.op, c.k, e.right)
  {
    var l := Run(e.left, m, env, slots);
    RunWithoutYield(e.right, m, l.env, l.slots);
    hide Eval;
  }

  /** And when its right operand has, after a left one without yields. */
  lemma RightComesOut(e: Expr, m: Meaning, env: Env, slots: Slots, l: Co, c: Co)
    requires e.Binary? && !HasYield(e.left) && l == Eval(e.left, m, env) && l.CoDone? && !m.stops(e.op, l.v)
    requires ComesOut(Run(e.right, m, l.env, slots), c)
    ensures ComesOut(Run(e, m, env, slots), Logged(RightWith(e.op, l.v, m, c), l.log))
    ensures Run(e, m, env, slots).slots == Run(e.right, m, l.env, slots).slots
    ensures RightWith(e.op, l.v, m, c).CoYield? <==> c.CoYield?
    ensures c.CoYield? ==> RightWith(e.op, l.v, m, c).k == InRight(e.op, l.v, c.k)
  {
    RunWithoutYield(e.left, m, env, slots);
    hide Eval;
  }

  lemma MarksLeft(e: Expr, m: Meaning, c: Co, slots: Slots)
    requires e.Binary? && !HasYield(e.right) && Marks(e.left, m, c, slots)
    ensures LeftWith(e.op, e.right, m, c).CoYield? <==> c.CoYield?
    ensures Marks(e, m, LeftWith(e.op, e.right, m, c), slots)
  {
    if c.CoDone? { RunWithoutYield(e.right, m, c.env, slots); }
  }

  lemma MarksRight(e: Expr, m: Meaning, env: Env, l: Co, c: Co, log: Log, slots: Slots)
    requires e.Binary? && HasYield(e.right) && Marks(e.right, m, c, slots)
    requires l == Eval(e.left, m, env) && l.CoDone? && !m.stops(e.op, l.v)
    ensures Marks(e, m, Logged(RightWith(e.op, l.v, m, c), log), slots)
  {
    if Constant(e.left) {
      ConstantAnywhere(e.left, m, env);
      ConstantAnywhere(e.left, m, map[]);
    }
  }

  lemma AnswersLeft(e: Expr, m: Meaning, env: Env, slots: Slots)
    requires e.Binary? && !HasYield(e.right) && slots.paused.Some? && Answers(e.left, m, env, slots)
    ensures Answers(e, m, env, slots)
  {
    match GoBack(e.left, m, env, slots.paused.value)
    case Astray(c) =>
      LeftComesOut(e, m, env, slots, c);
      hide Eval, LeftWith;
    case AtYield(k, env1, log) =>
      if slots.requestedReturn.None? && slots.sent.Some? {
        var c := Continue(k, m, env1, slots.sent.value);
        LeftComesOut(e, m, env, slots, Logged(c, log));
        LeftLogged(e.op, e.right, m, c, log);
        MarksLeft(e, m, Logged(c, log), Run(e.left, m, env, slots).slots);
      }
      hide Eval, LeftWith, Marks;
  }

  lemma AnswersRight(e: Expr, m: Meaning, env: Env, slots: Slots)
    requires e.Binary? && HasYield(e.right) && !HasYield(e.left) && slots.paused.Some?
    requires Eval(e.left, m, env).CoDone? ==> Answers(e.right, m, Eval(e.left, m, env).env, slots)
    ensures Answers(e, m, env, slots)
  {
    RunWithoutYield(e.left, m, env, slots);
    var l := Eval(e.left, m, env);
    if l.CoDone? && !m.stops(e.op, l.v) {
      match GoBack(e.right, m, l.env, slots.paused.value)
      case Astray(c) => RightComesOut(e, m, env, slots, l, c); hide Eval, RightWith;
      case AtYield(k, env1, log) =>
        if slots.requestedReturn.None? && slots.sent.Some? {
          var c := Continue(k, m, env1, slots.sent.value);
          RightComesOut(e, m, env, slots, l, Logged(c, log));
          RightLogged(e.op, l.v, m, c, l.log, log);
          MarksRight(e, m, env, l, Logged(c, log), l.log, Run(e.right, m, l.env, slots).slots);
        }
        hide Eval, RightWith, Marks;
    }
  }

  /** Every later run: what stands to the left of the paused yield is evaluated again, with the variables as they are by
      now; then that yield answers, and the rest is what a continuation standing there would do. */
  lemma {:induction false} LaterRun(e: Expr, m: Meaning, env: Env, slots: Slots)
    requires Single(e) && DistinctYields(e) && slots.paused.Some? && slots.paused.value in YieldIds(e)
    ensures Answers(e, m, env, slots)
    decreases e
  {
    hide Answers;
    match e
    case Call(_, arg) =>
      LaterRun(arg, m, env, slots);
      AnswersCall(e, m, env, slots);
    case Yield(id, operand) =>
      if slots.paused.value == id {
        AnswersHere(e, m, env, slots);
      } else {
        LaterRun(operand, m, env, slots);
        AnswersYield(e, m, env, slots);
      }
    case Binary(_, left, right) =>
      if HasYield(right) {
        NoYield(left);
        if Eval(left, m, env).CoDone? { LaterRun(right, m, Eval(left, m, env).env, slots); }
        AnswersRight(e, m, env, slots);
      } else {
        NoYield(right);
        LaterRun(left, m, env, slots);
        AnswersLeft(e, m, env, slots);
      }
  }

  lemma AnswersHere(e: Expr, m: Meaning, env: Env, slots: Slots)
    requires e.Yield? && slots.paused == Some(e.id)
    ensures Answers(e, m, env, slots)
  {
  }

  /** The way back to a yield of a restartable statement repeats nothing and finds everything as it was, whatever has
      become of the variables. */
  lemma {:induction false} RestartableGoesBack(e: Expr, m: Meaning, env: Env, id: YieldId, k: Kont)
    requires Restartable(e) && PausedAt(e, m, id, k)
    ensures GoBack(e, m, env, id) == AtYield(k, env, [])
    decreases e
  {
    match e
    case Call(_, arg) => RestartableGoesBack(arg, m, env, id, k.k);
    case Yield(i, operand) => if id != i { RestartableGoesBack(operand, m, env, id, k.k); }
    case Binary(_, left, right) =>
      if HasYield(right) {
        ConstantAnywhere(left, m, env);
        RestartableGoesBack(right, m, env, id, k.k);
      } else {
        RestartableGoesBack(left, m, env, id, k.k);
      }
  }

  // ---------- whole generators ----------

  ghost predicate Same(a: Answer, b: Answer) {
    a.g == b.g && a.reply == b.reply && a.env == b.env
  }

  ghost predicate Matches(body: seq<Stmt>, m: Meaning, g: Generator, c: Coroutine) {
    match c
    case Unstarted => g.state == SuspendedStart && !g.isDone && g.index == 0 && g.slots.paused == None
    case Finished => g.state == Completed && g.isDone && g.index <= |body|
    case Waiting(index, k) =>
      && g.state == SuspendedYield && !g.isDone && g.index == index < |body|
      && g.slots.paused.Some? && g.slots.paused.value in YieldIds(body[index].e)
      && PausedAt(body[index].e, m, g.slots.paused.value, k)
  }

  ghost predicate SameAnswer(body: seq<Stmt>, m: Meaning, a: Answer, b: CoAnswer) {
    a.reply == b.reply && a.env == b.env && a.log == b.log && Matches(body, m, a.g, b.c)
  }

  lemma {:induction false} ExecuteMatches(body: seq<Stmt>, m: Meaning, g: Generator, env: Env)
    requires g.index <= |body| && g.slots.paused == None && !g.isDone && forall s <- body :: GoodStatement(s)
    ensures SameAnswer(body, m, Execute(body, m, g, env), CoExecute(body, m, g.index, env))
    decreases |body| - g.index
  {
    if g.index < |body| {
      var s := body[g.index];
      assert s in body;
      RestartableIsSingle(s.e);
      FirstRun(s.e, m, env, g.slots);
      var r := Run(s.e, m, env, g.slots);
      if r.outcome.Done? && !s.Return? {
        ExecuteMatches(body, m, g.(index := g.index + 1, slots := r.slots), After(s, r.env, r.outcome.v));
      }
    }
  }

  lemma ReturnWaiting(body: seq<Stmt>, m: Meaning, g: Generator, c: Coroutine, env: Env, arg: Value)
    requires Matches(body, m, g, c) && c.Waiting? && GoodStatement(body[c.index])
    ensures SameAnswer(body, m, Resume(body, m, g, env, arg, true), CoResume(body, m, c, env, arg, true))
  {
    var s := body[g.index];
    RestartableIsSingle(s.e);
    LaterRun(s.e, m, env, Prepared(g, arg, true));
    RestartableGoesBack(s.e, m, env, g.slots.paused.value, c.k);
    hide Run, GoBack, PausedAt, Continue, YieldIds, DistinctYields, Restartable, Single;
  }

  lemma NextWaiting(body: seq<Stmt>, m: Meaning, g: Generator, c: Coroutine, env: Env, arg: Value)
    requires Matches(body, m, g, c) && c.Waiting? && forall s <- body :: GoodStatement(s)
    ensures SameAnswer(body, m, Resume(body, m, g, env, arg, false), CoResume(body, m, c, env, arg, false))
  {
    var s, slots := body[g.index], Prepared(g, arg, false);
    assert s in body;
    RestartableIsSingle(s.e);
    hide Run, GoBack, PausedAt, Continue, YieldIds, DistinctYields, Restartable, Single;
    LaterRun(s.e, m, env, slots);
    RestartableGoesBack(s.e, m, env, g.slots.paused.value, c.k);
    var r := Run(s.e, m, env, slots);
    assert [] + Continue(c.k, m, env, arg).log == Continue(c.k, m, env, arg).log;
    if r.outcome.Done? && !s.Return? {
      var g1 := g.(state := Executing, index := g.index + 1, slots := r.slots);
      ExecuteMatches(body, m, g1, After(s, r.env, r.outcome.v));
    }
  }

  lemma ResumeMatches(body: seq<Stmt>, m: Meaning, g: Generator, c: Coroutine, env: Env, arg: Value, isReturn: bool)
    requires Matches(body, m, g, c) && forall s <- body :: GoodStatement(s)
    ensures SameAnswer(body, m, Resume(body, m, g, env, arg, isReturn), CoResume(body, m, c, env, arg, isReturn))
  {
    match c
    case Finished =>
    case Waiting(index, _) =>
      assert body[index] in body;
      if isReturn {
        ReturnWaiting(body, m, g, c, env, arg);
      } else {
        NextWaiting(body, m, g, c, env, arg);
      }
    case Unstarted =>
      if !isReturn {
        ExecuteMatches(body, m, g.(state := Executing, slots := Slots(None, None, None)), env);
      }
  }

  /** A call of next or of return, with its argument and the variables as they stand by then. */
  datatype Request = Request(arg: Value, isReturn: bool, env: Env)

  ghost predicate Alike(body: seq<Stmt>, m: Meaning, g: Generator, c: Coroutine, requests: seq<Request>)
    requires g.index <= |body| && (c.Waiting? ==> c.index < |body|)
    decreases |requests|
  {
    requests == [] ||
    var x := requests[0];
    var a, b := Resume(body, m, g, x.env, x.arg, x.isReturn), CoResume(body, m, c, x.env, x.arg, x.isReturn);
    && a.reply == b.reply && a.env == b.env && a.log == b.log
    && a.g.index <= |body| && (b.c.Waiting? ==> b.c.index < |body|)
    && Alike(body, m, a.g, b.c, requests[1..])
  }

  const NEW_GENERATOR := Generator(SuspendedStart, false, 0, Slots(None, None, None))

  lemma {:induction false} AlikeFrom(body: seq<Stmt>, m: Meaning, g: Generator, c: Coroutine, requests: seq<Request>)
    requires Matches(body, m, g, c) && forall s <- body :: GoodStatement(s)
    ensures Alike(body, m, g, c, requests)
    decreases |requests|
  {
    if requests != [] {
      var x := requests[0];
      ResumeMatches(body, m, g, c, x.env, x.arg, x.isReturn);
      AlikeFrom(body, m, Resume(body, m, g, x.env, x.arg, x.isReturn).g,
                CoResume(body, m, c, x.env, x.arg, x.isReturn).c, requests[1..]);
    }
  }

  /** Under every sequence of next and return calls, whatever happens to the variables between and during them, a
      generator whose statements are restartable is the coroutine: the same values, done flags and exceptions, the same
      variables afterwards, and the same calls made, in the same order. */
  lemma GeneratorIsCoroutine(body: seq<Stmt>, m: Meaning, requests: seq<Request>)
    requires forall s <- body :: Restartable(s.e) && DistinctYields(s.e)
    ensures Alike(body, m, NEW_GENERATOR, Unstarted, requests)
  {
    AlikeFrom(body, m, NEW_GENERATOR, Unstarted, requests);
  }

  // ---------- for every body, restartable or not ----------

  lemma ReadAtEnd(body: seq<Stmt>, m: Meaning, g: Generator, env: Env)
    requires g.index < |body| && body[g.index].Return? && body[g.index].e.Var?
    ensures Execute(body, m, g, env)
         == Leaves(g, RunResult(if body[g.index].e.name in env then Done(env[body[g.index].e.name])
                                else Threw("ReferenceError"), g.slots, env, []))
  {
    assert Run(body[g.index].e, m, env, g.slots).slots == g.slots;
  }

  /** A statement that comes out without being a return hands over to the next one. */
  lemma HandsOver(body: seq<Stmt>, m: Meaning, g: Generator, env: Env)
    requires g.index + 1 < |body| && !body[g.index].Return? && body[g.index + 1].Return? && body[g.index + 1].e.Var?
    ensures var r := Run(body[g.index].e, m, env, g.slots);
            r.outcome.Done? ==>
              var a, name := Execute(body, m, g, env), body[g.index + 1].e.name;
              var env1 := After(body[g.index], r.env, r.outcome.v);
              && a.g == g.(state := Completed, isDone := true, slots := r.slots,
                           index := if name in env1 then g.index + 2 else g.index + 1)
              && a.reply == (if name in env1 then Reply(env1[name], true) else Failed("ReferenceError"))
              && a.env == env1 && a.log == r.log
  {
    var r := Run(body[g.index].e, m, env, g.slots);
    hide Run;
    if r.outcome.Done? {
      ReadAtEnd(body, m, g.(index := g.index + 1, slots := r.slots), After(body[g.index], r.env, r.outcome.v));
      assert r.log + [] == r.log;
    }
  }

  /** return e is x = e; return x, with or without yields in e and whatever next or return asks for: the same replies
      and the same calls, and the generator stands the same until it is done. Afterwards x holds what was replied, and
      every other variable what it held. */
  lemma StoredIsReturned(body: seq<Stmt>, m: Meaning, g: Generator, env: Env, arg: Value, isReturn: bool)
    requires g.index + 1 < |body| && body[g.index].Assign? && body[g.index + 1] == Return(Var(body[g.index].name))
    ensures var a := Resume(body, m, g, env, arg, isReturn);
            var b := Resume(body[g.index := Return(body[g.index].e)], m, g, env, arg, isReturn);
            && a.reply == b.reply && a.log == b.log && (a.g.isDone <==> b.g.isDone) && (!a.g.isDone ==> a.g == b.g)
            && (b.g.index > g.index ==> b.reply.Reply? && b.reply.done)
            && a.env == if b.g.index > g.index then b.env[body[g.index].name := b.reply.value] else b.env
  {
    HandsOver(body, m, g.(state := Executing, slots := Prepared(g, arg, isReturn)), env);
    hide Run;
  }

  /** x = yield e; return x, paused at that yield: next(v) replies v and leaves v in x, and return(v) replies v and
      leaves every variable as it is. */
  lemma SentIsStored(body: seq<Stmt>, m: Meaning, g: Generator, env: Env, v: Value)
    requires g.index + 1 < |body| && body[g.index].Assign? && body[g.index + 1] == Return(Var(body[g.index].name))
    requires body[g.index].e.Yield? && g.slots.paused == Some(body[g.index].e.id)
    requires g.state == SuspendedYield && !g.isDone
    ensures var a, b := Resume(body, m, g, env, v, false), Resume(body, m, g, env, v, true);
            && a.reply == b.reply == Reply(v, true) && a.log == b.log == []
            && a.env == env[body[g.index].name := v] && b.env == env
            && a.g.state == b.g.state == Completed && a.g.isDone && b.g.isDone
  {
    HandsOver(body, m, g.(state := Executing, slots := Prepared(g, v, false)), env);
    ExecuteOnce(body, m, g.(state := Executing, slots := Prepared(g, v, true)), env);
  }

  /** Any other variable is read after the assignment, or after a bare expression, as that left it. */
  lemma StoresNowhereElse(body: seq<Stmt>, m: Meaning, g: Generator, env: Env, arg: Value, y: string)
    requires g.index + 1 < |body| && !body[g.index].Return? && body[g.index + 1] == Return(Var(y))
    requires (body[g.index].Assign? ==> body[g.index].name != y) && !g.isDone
    ensures var r := Run(body[g.index].e, m, env, Prepared(g, arg, false));
            r.outcome.Done? ==>
              Resume(body, m, g, env, arg, false).reply == if y in r.env then Reply(r.env[y], true)
                                                           else Failed("ReferenceError")
  {
    HandsOver(body, m, g.(state := Executing, slots := Prepared(g, arg, false)), env);
    hide Run;
  }

  /** The first next of a generator whose first statement starts with a yield hands out its operand, and keeps the
      variables as the operand left them. */
  lemma FirstNextYields(body: seq<Stmt>, m: Meaning, env: Env, arg: Value)
    requires body != [] && body[0].e.Yield? && !HasYield(body[0].e.operand) && DistinctYields(body[0].e)
    ensures var a, o := Resume(body, m, NEW_GENERATOR, env, arg, false), Eval(body[0].e.operand, m, env);
            && !o.CoYield? && a.env == o.env && a.log == o.log
            && (o.CoDone? ==> a.reply == Reply(o.v, false) && a.g.state == SuspendedYield
                              && a.g.slots.paused == Some(body[0].e.id))
            && (o.CoThrew? ==> a.reply == Failed(o.message) && a.g.state == Completed)
  {
    NoYield(body[0].e.operand);
    FirstRun(body[0].e.operand, m, env, Slots(None, None, None));
  }

  /** How the last statement comes out is the reply: its exception, what it yields or returns, else undefined. */
  lemma LastStatement(body: seq<Stmt>, m: Meaning, g: Generator, env: Env, arg: Value)
    requires g.index + 1 == |body| && !g.isDone
    ensures var a, r := Resume(body, m, g, env, arg, false), Run(body[g.index].e, m, env, Prepared(g, arg, false));
            && a.log == r.log
            && a.env == (if r.outcome.Done? then After(body[g.index], r.env, r.outcome.v) else r.env)
            && a.reply == match r.outcome
                          case Done(v) => Reply(if body[g.index].Return? then v else Undefined, true)
                          case Threw(e) => Failed(e)
                          case Yielded(v) => Reply(v, false)
                          case Returned(v) => Reply(v, true)
    ensures var c := Eval(body[g.index].e, m, env);
            CoExecute(body, m, g.index, env).reply
            == match c
               case CoDone(v, _, _) => Reply(if body[g.index].Return? then v else Undefined, true)
               case CoThrew(e, _, _) => Failed(e)
               case CoYield(v, _, _, _) => Reply(v, false)
  {
    var g1 := g.(state := Executing, slots := Prepared(g, arg, false));
    var r := Run(body[g.index].e, m, env, g1.slots);
    ExecuteOnce(body, m, g1, env);
    var c := Eval(body[g.index].e, m, env);
    hide Run, Eval;
    if r.outcome.Done? && !body[g.index].Return? {
      assert r.log + [] == r.log;
    }
    if c.CoDone? && !body[g.index].Return? {
      var env1 := After(body[g.index], c.env, c.v);
      assert CoExecute(body, m, g.index + 1, env1) == CoAnswer(Finished, Reply(Undefined, true), env1, []);
    }
  }

  /** return(v) before the first next runs nothing: it replies v and finishes the generator. */
  lemma ReturnBeforeStart(body: seq<Stmt>, m: Meaning, env: Env, v: Value)
    ensures var a, b := Resume(body, m, NEW_GENERATOR, env, v, true), CoResume(body, m, Unstarted, env, v, true);
            && a.reply == b.reply == Reply(v, true) && a.log == b.log == [] && a.env == b.env == env
            && a.g.isDone && a.g.state == Completed && b.c == Finished
  {
  }

  /** Functions get their argument with the variables, and operators the left operand first. */
  lemma Applied(e: Expr, m: Meaning, env: Env, slots: Slots, x: string, y: string)
    requires x in env && y in env
    ensures e.Lit? ==> Comes(e, m, env, slots, (env, Ok(e.v)))
    ensures e.Call? && e.arg == Var(x) ==> Comes(e, m, env, slots, m.call(env, e.f, env[x]))
    ensures e.Binary? && e.left == Var(x) && e.right == Var(y) ==>
              Comes(e, m, env, slots,
                    (env, if m.stops(e.op, env[x]) then Ok(env[x]) else m.binary(e.op, env[x], env[y])))
  {
    assert Run(Var(x), m, env, slots).outcome == Done(env[x]) && Eval(Var(x), m, env) == CoDone(env[x], env, []);
    assert Run(Var(y), m, env, slots).outcome == Done(env[y]) && Eval(Var(y), m, env) == CoDone(env[y], env, []);
  }

  /** Both evaluators come out with that result and those variables. */
  ghost predicate Comes(e: Expr, m: Meaning, env: Env, slots: Slots, d: (Env, Result<Value>)) {
    var r, c := Run(e, m, env, slots), Eval(e, m, env);
    && r.outcome == Raise(d.1) && r.env == d.0 && r.slots == slots
    && c.env == d.0
    && match d.1
       case Ok(v) => c.CoDone? && c.v == v
       case Err(message) => c.CoThrew? && c.message == message
  }

  /** The coroutine stores the same way. */
  lemma CoroutineStores(body: seq<Stmt>, m: Meaning, c: Coroutine, env: Env, arg: Value, isReturn: bool)
    requires var i := if c.Waiting? then c.index else 0;
             i + 1 < |body| && body[i].Assign? && body[i + 1] == Return(Var(body[i].name))
    ensures var i := if c.Waiting? then c.index else 0;
            var short := body[i := Return(body[i].e)];
            var a, b := CoResume(body, m, c, env, arg, isReturn), CoResume(short, m, c, env, arg, isReturn);
            && a.reply == b.reply && a.c == b.c && a.log == b.log
            && a.env == if b.c.Finished? && b.reply.Reply? && !c.Finished? && !isReturn
                        then b.env[body[i].name := b.reply.value] else b.env
  {
    var i := if c.Waiting? then c.index else 0;
    CoHandsOver(body, m, i, if c.Waiting? then Continue(c.k, m, env, arg) else Eval(body[i].e, m, env));
    hide Continue, Eval, Proceed;
  }

  lemma CoHandsOver(body: seq<Stmt>, m: Meaning, i: nat, c: Co)
    requires i + 1 < |body| && body[i].Assign? && body[i + 1] == Return(Var(body[i].name))
    ensures var a, b := Proceed(body, m, i, c), Proceed(body[i := Return(body[i].e)], m, i, c);
            && a.reply == b.reply && a.c == b.c && a.log == b.log
            && (c.CoDone? ==> b.reply == Reply(c.v, true) && b.c == Finished)
            && (c.CoThrew? ==> b.reply.Failed?) && (c.CoYield? ==> b.c.Waiting?)
            && a.env == if c.CoDone? then b.env[body[i].name := c.v] else b.env
  {
    if c.CoDone? {
      var env1 := c.env[body[i].name := c.v];
      assert Eval(body[i + 1].e, m, env1) == CoDone(c.v, env1, []);
      assert CoExecute(body, m, i + 1, env1) == CoAnswer(Finished, Reply(c.v, true), env1, []);
      assert c.log + [] == c.log;
    }
  }

  lemma {:induction false} ExecuteSettles(body: seq<Stmt>, m: Meaning, g: Generator, env: Env)
    requires g.index <= |body| && !g.isDone
    ensures var a := Execute(body, m, g, env);
            a.g.index <= |body| && a.g.state in {SuspendedYield, Completed}
            && (a.g.isDone <==> a.g.state == Completed) && (a.reply.Reply? ==> (a.reply.done <==> a.g.isDone))
            && (a.reply.Failed? ==> a.g.isDone)
    decreases |body| - g.index
  {
    if g.index < |body| {
      var r := Run(body[g.index].e, m, env, g.slots);
      if r.outcome.Done? && !body[g.index].Return? {
        ExecuteSettles(body, m, g.(index := g.index + 1, slots := r.slots),
                       After(body[g.index], r.env, r.outcome.v));
      }
    }
  }

  /** is_done holds exactly in Completed, the done flag of every reply tells it, and Completed is absorbing: from
      then on next and return run nothing and answer undefined, done. */
  lemma DoneIsCompleted(body: seq<Stmt>, m: Meaning, g: Generator, env: Env, arg: Value, isReturn: bool)
    requires g.index <= |body| && (g.isDone <==> g.state == Completed)
    ensures var a := Resume(body, m, g, env, arg, isReturn);
            a.g.index <= |body| && (a.g.isDone <==> a.g.state == Completed)
            && (a.reply.Reply? ==> (a.reply.done <==> a.g.isDone)) && (a.reply.Failed? ==> a.g.isDone)
            && (g.isDone ==> a == Answer(g, Reply(Undefined, true), env, []))
  {
    if !g.isDone && !(g.state == SuspendedStart && isReturn) {
      ExecuteSettles(body, m, g.(state := Executing, slots := Prepared(g, arg, isReturn)), env);
    }
  }

  // ---------- the generator object ----------

  /** GeneratorValue with the generator fields of its frame. env is the environment the frame shares with the rest of
      the program, which may assign it between two requests. */
  class GeneratorValue {
    const body: seq<Stmt>
    const m: Meaning
    var state: State
    var isDone: bool
    var nextStatementIndex: nat
    var env: Env
    var pausedYield: Option<YieldId>
    var hasSentValue: bool
    var sentValue: Value
    var requestedReturn: bool
    var returnValue: Value

    constructor (body: seq<Stmt>, m: Meaning, env: Env)
      ensures this.body == body && this.m == m && this.env == env && View() == NEW_GENERATOR
    {
      this.body, this.m, this.env := body, m, env;
      state, isDone, nextStatementIndex, pausedYield := SuspendedStart, false, 0, None;
      hasSentValue, sentValue, requestedReturn, returnValue := false, Undefined, false, Undefined;
    }

    ghost function SlotsView(): Slots
      reads this
    {
      Slots(pausedYield, if hasSentValue then Some(sentValue) else None,
            if requestedReturn then Some(returnValue) else None)
    }

    ghost function View(): Generator
      reads this
    {
      Generator(state, isDone, nextStatementIndex, SlotsView())
    }

    method EvaluateExpression(e: Expr) returns (o: Outcome)
      modifies this`env, this`pausedYield, this`hasSentValue, this`sentValue, this`requestedReturn, this`returnValue
      ensures var r := Run(e, m, old(env), old(SlotsView()));
              o == r.outcome && SlotsView() == r.slots && env == r.env
      decreases e
    {
      match e {
        case Lit(v) => o := Done(v);
        case Var(x) => o := if x in env then Done(env[x]) else Threw("ReferenceError");
        case Call(f, arg) =>
          o := EvaluateExpression(arg);
          if o.Done? {
            var c := m.call(env, f, o.v);
            env, o := c.0, Raise(c.1);
          }
        case Binary(op, left, right) =>
          var l := EvaluateExpression(left);
          if !l.Done? || m.stops(op, l.v) { return l; }
          var r := EvaluateExpression(right);
          o := if r.Done? then Raise(m.binary(op, l.v, r.v)) else r;
        case Yield(id, operand) =>
          if pausedYield == Some(id) {
            pausedYield := None;
            if requestedReturn {
              o := Returned(returnValue);
              requestedReturn, returnValue := false, Undefined;
              return;
            }
            o := Done(Undefined);
            if hasSentValue {
              o := Done(sentValue);
              hasSentValue, sentValue := false, Undefined;
            }
          } else {
            o := EvaluateExpression(operand);
            if o.Done? {
              pausedYield := Some(id);
              o := Yielded(o.v);
            }
          }
      }
    }

    /** execute_frame_until_yield_or_return, and the end of resume_generator. */
    method ExecuteUntilYieldOrReturn() returns (reply: Reply)
      requires nextStatementIndex <= |body|
      modifies this
      ensures var a := Execute(body, m, old(View()), old(env)); View() == a.g && reply == a.reply && env == a.env
    {
      while nextStatementIndex < |body|
        invariant nextStatementIndex <= |body|
        invariant Same(Execute(body, m, View(), env), Execute(body, m, old(View()), old(env)))
        decreases |body| - nextStatementIndex
      {
        hide Run;
        ExecuteOnce(body, m, View(), env);
        hide Execute;
        var s := body[nextStatementIndex];
        var o := EvaluateExpression(s.e);
        match o {
          case Yielded(v) =>
            state := SuspendedYield;
            return Reply(v, false);
          case Returned(v) =>
            pausedYield, requestedReturn, returnValue := None, false, Undefined;
            state, isDone := Completed, true;
            return Reply(v, true);
          case Threw(error) =>
            state, isDone := Completed, true;
            return Failed(error);
          case Done(v) =>
            nextStatementIndex := nextStatementIndex + 1;
            if s.Return? {
              state, isDone := Completed, true;
              return Reply(v, true);
            }
            if s.Assign? {
              env := env[s.name := v];
            }
        }
      }
      state, isDone := Completed, true;
      return Reply(Undefined, true);
    }

    /** resume_generator, behind the next and return methods. */
    method ResumeGenerator(arg: Value, isReturn: bool) returns (reply: Reply)
      requires nextStatementIndex <= |body|
      modifies this
      ensures var a := Resume(body, m, old(View()), old(env), arg, isReturn);
              View() == a.g && reply == a.reply && env == a.env
    {
      if isDone { return Reply(Undefined, true); }
      if state == SuspendedStart {
        if isReturn {
          state, isDone := Completed, true;
          return Reply(arg, true);
        }
        hasSentValue, sentValue, requestedReturn, returnValue := false, Undefined, false, Undefined;
      } else if isReturn {
        requestedReturn, returnValue, hasSentValue, sentValue := true, arg, false, Undefined;
      } else {
        requestedReturn, returnValue, sentValue, hasSentValue := false, Undefined, arg, true;
      }
      state := Executing;
      reply := ExecuteUntilYieldOrReturn();
    }
  }
}
