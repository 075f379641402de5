/** Where throwing and running again is not a coroutine: two yields side by side, and anything but a constant to the
    left of a yield. Together with the other direction this gives the exact condition for a statement. */
module GeneratorLimits {
  import opened Wrappers
  import opened Generators

  function Vars(e: Expr): set<string> {
    match e
    case Lit(_) => {}
    case Var(x) => {x}
    case Call(_, arg) => Vars(arg)
    case Binary(_, left, right) => Vars(left) + Vars(right)
    case Yield(_, operand) => Vars(operand)
  }

  function Yields(e: Expr): nat {
    match e
    case Lit(_) => 0
    case Var(_) => 0
    case Call(_, arg) => Yields(arg)
    case Binary(_, left, right) => Yields(left) + Yields(right)
    case Yield(_, operand) => Yields(operand) + 1
  }

  lemma {:induction false} YieldsIffHas(e: Expr)
    ensures Yields(e) > 0 <==> HasYield(e)
  {
    match e
    case Lit(_) =>
    case Var(_) =>
    case Call(_, arg) => YieldsIffHas(arg);
    case Binary(_, left, right) =>
      YieldsIffHas(left);
      YieldsIffHas(right);
    case Yield(_, _) =>
  }

  /** The yields still to come. */
  function Left(k: Kont): nat {
    match k
    case Hole => 0
    case InCall(_, k1) => Left(k1)
    case InLeft(_, k1, right) => Left(k1) + Yields(right)
    case InRight(_, _, k1) => Left(k1)
    case InYield(k1) => Left(k1) + 1
  }

  /** With one statement in the body the coroutine is done as soon as the statement is. */
  lemma ProceedEnds(s: Stmt, m: Meaning, c: Co)
    ensures var b := Proceed([s], m, 0, c);
            match c
            case CoDone(_, _, _) => b.c == Finished && b.reply.Reply? && b.reply.done
            case CoThrew(_, _, _) => b.c == Finished
            case CoYield(v, k, _, _) => b.c == Waiting(0, k) && b.reply == Reply(v, false)
  {
  }

  // ---------- two yields side by side ----------

  /** Nothing throws, no operator stops short, and no call takes a variable away. */
  ghost predicate Smooth(m: Meaning) {
    && (forall env, f, v :: m.call(env, f, v).1.Ok? && env.Keys <= m.call(env, f, v).0.Keys)
    && (forall op, x, y :: m.binary(op, x, y).Ok?)
    && (forall op, v :: !m.stops(op, v))
  }

  predicate BoundIn(k: Kont, names: set<string>) {
    match k
    case Hole => true
    case InCall(_, k1) => BoundIn(k1, names)
    case InLeft(_, k1, right) => BoundIn(k1, names) && Vars(right) <= names
    case InRight(_, _, k1) => BoundIn(k1, names)
    case InYield(k1) => BoundIn(k1, names)
  }

  /** c will stop at n more yields, with the names still bound. */
  predicate StopsTimes(c: Co, names: set<string>, n: nat) {
    && names <= c.env.Keys
    && match c
       case CoDone(_, _, _) => n == 0
       case CoThrew(_, _, _) => false
       case CoYield(_, k, _, _) => n == Left(k) + 1 && BoundIn(k, names)
  }

  lemma {:induction false} EvalStops(e: Expr, m: Meaning, env: Env, names: set<string>)
    requires Smooth(m) && Vars(e) <= names <= env.Keys
    ensures StopsTimes(Eval(e, m, env), names, Yields(e))
    decreases e
  {
    match e
    case Lit(_) =>
    case Var(_) =>
    case Call(_, arg) => EvalStops(arg, m, env, names);
    case Yield(_, operand) => EvalStops(operand, m, env, names);
    case Binary(op, left, right) =>
      EvalStops(left, m, env, names);
      var l := Eval(left, m, env);
      if l.CoDone? { EvalStops(right, m, l.env, names); }
      LeftStops(op, right, m, names, l, Yields(left));
  }

  lemma LeftStops(op: string, right: Expr, m: Meaning, names: set<string>, l: Co, n: nat)
    requires Smooth(m) && Vars(right) <= names && StopsTimes(l, names, n)
    requires l.CoDone? ==> StopsTimes(Eval(right, m, l.env), names, Yields(right))
    ensures StopsTimes(LeftWith(op, right, m, l), names, n + Yields(right))
  {
    hide Eval;
  }

  lemma {:induction false} ContinueStops(k: Kont, m: Meaning, env: Env, names: set<string>, sent: Value)
    requires Smooth(m) && BoundIn(k, names) && names <= env.Keys
    ensures StopsTimes(Continue(k, m, env, sent), names, Left(k))
    decreases k
  {
    match k
    case Hole =>
    case InCall(_, k1) => ContinueStops(k1, m, env, names, sent);
    case InRight(_, _, k1) => ContinueStops(k1, m, env, names, sent);
    case InYield(k1) => ContinueStops(k1, m, env, names, sent);
    case InLeft(op, k1, right) =>
      ContinueStops(k1, m, env, names, sent);
      var l := Continue(k1, m, env, sent);
      if l.CoDone? { EvalStops(right, m, l.env, names); }
      LeftStops(op, right, m, names, l, Left(k1));
  }

  /** The paused yield is not one that would let the run skip the two yields side by side. */
  predicate Stalls(e: Expr, paused: Option<YieldId>) {
    match e
    case Lit(_) => false
    case Var(_) => false
    case Call(_, arg) => Stalls(arg, paused)
    case Yield(id, operand) => paused != Some(id) && Stalls(operand, paused)
    case Binary(_, left, right) =>
      if HasYield(left) then HasYield(right) || Stalls(left, paused) else Stalls(right, paused)
  }

  lemma {:induction false} StallsAtFirst(e: Expr)
    requires !Single(e)
    ensures Stalls(e, None)
  {
    match e
    case Call(_, arg) => StallsAtFirst(arg);
    case Yield(_, operand) => StallsAtFirst(operand);
    case Binary(_, left, right) =>
      if !(HasYield(left) && HasYield(right)) {
        if HasYield(left) {
          NoYield(right);
          StallsAtFirst(left);
        } else {
          NoYield(left);
          StallsAtFirst(right);
        }
      }
  }

  /** A run of a smooth program yields or completes; it completes only if a marked yield has answered. */
  lemma {:induction false} SmoothRun(e: Expr, m: Meaning, env: Env, slots: Slots)
    requires Smooth(m) && Vars(e) <= env.Keys && slots.requestedReturn == None
    ensures var r := Run(e, m, env, slots);
            && r.slots.requestedReturn == None && (r.outcome.Done? || r.outcome.Yielded?) && env.Keys <= r.env.Keys
            && (r.outcome.Yielded? ==> r.slots.paused.Some? && r.slots.paused.value in YieldIds(e))
            && (r.outcome.Done? && HasYield(e) ==> r.slots.paused == None && slots.paused.Some?)
            && (!HasYield(e) ==> r.outcome.Done? && r.slots == slots)
  {
    match e
    case Lit(_) =>
    case Var(_) =>
    case Call(_, arg) => SmoothRun(arg, m, env, slots);
    case Yield(_, operand) => SmoothRun(operand, m, env, slots);
    case Binary(_, left, right) =>
      SmoothRun(left, m, env, slots);
      var l := Run(left, m, env, slots);
      SmoothRun(right, m, l.env, l.slots);
  }

  lemma {:induction false} StalledRun(e: Expr, m: Meaning, env: Env, slots: Slots)
    requires Smooth(m) && Vars(e) <= env.Keys && DistinctYields(e)
    requires slots.requestedReturn == None && Stalls(e, slots.paused)
    ensures var r := Run(e, m, env, slots); r.outcome.Yielded? && Stalls(e, r.slots.paused)
  {
    SmoothRun(e, m, env, slots);
    match e
    case Call(_, arg) => StalledRun(arg, m, env, slots);
    case Yield(_, operand) =>
      StalledRun(operand, m, env, slots);
      SmoothRun(operand, m, env, slots);
    case Binary(_, left, right) =>
      SmoothRun(left, m, env, slots);
      var l := Run(left, m, env, slots);
      SmoothRun(right, m, l.env, l.slots);
      if HasYield(left) {
        if !HasYield(right) {
          StalledRun(left, m, env, slots);
        }
      } else {
        StalledRun(right, m, l.env, l.slots);
      }
  }

  /** next calls only, each with the names bound. */
  ghost predicate Nexts(requests: seq<Request>, names: set<string>) {
    forall x <- requests :: !x.isReturn && names <= x.env.Keys
  }

  function AfterAll(body: seq<Stmt>, m: Meaning, g: Generator, requests: seq<Request>): Generator
    requires g.index <= |body|
    decreases |requests|
  {
    if requests == [] then g
    else
      var a := Resume(body, m, g, requests[0].env, requests[0].arg, requests[0].isReturn);
      if a.g.index <= |body| then AfterAll(body, m, a.g, requests[1..]) else a.g
  }

  function CoAfterAll(body: seq<Stmt>, m: Meaning, c: Coroutine, requests: seq<Request>): Coroutine
    requires c.Waiting? ==> c.index < |body|
    decreases |requests|
  {
    if requests == [] then c
    else
      var a := CoResume(body, m, c, requests[0].env, requests[0].arg, requests[0].isReturn);
      if a.c.Waiting? ==> a.c.index < |body| then CoAfterAll(body, m, a.c, requests[1..]) else a.c
  }

  predicate Stalled(s: Stmt, g: Generator) {
    !g.isDone && g.index == 0 && Stalls(s.e, g.slots.paused)
  }

  /** A next call on a stalled generator yields again and leaves it stalled. */
  lemma NextStalls(s: Stmt, m: Meaning, g: Generator, env: Env, arg: Value)
    requires Smooth(m) && DistinctYields(s.e) && Stalled(s, g) && Vars(s.e) <= env.Keys
    ensures var a := Resume([s], m, g, env, arg, false); Stalled(s, a.g) && a.reply.Reply? && !a.reply.done
  {
    StalledRun(s.e, m, env, Prepared(g, arg, false));
    assert [s][0] == s;
    hide Run, Stalls, DistinctYields, Smooth, Vars;
  }

  lemma {:induction false} StaysStalled(s: Stmt, m: Meaning, g: Generator, requests: seq<Request>)
    requires Smooth(m) && DistinctYields(s.e) && Stalled(s, g) && Nexts(requests, Vars(s.e))
    ensures Stalled(s, AfterAll([s], m, g, requests))
    decreases |requests|
  {
    if requests != [] {
      assert requests[0] in requests;
      NextStalls(s, m, g, requests[0].env, requests[0].arg);
      hide Resume, Stalled;
      StaysStalled(s, m, Resume([s], m, g, requests[0].env, requests[0].arg, false).g, requests[1..]);
    }
  }

  /** There is one slot for the paused yield: with two yields side by side each run forgets the other one. However the
      variables change in between, no number of next calls gets past the statement. */
  lemma SideBySideNeverFinishes(s: Stmt, m: Meaning, requests: seq<Request>)
    requires Smooth(m) && DistinctYields(s.e) && !Single(s.e) && Nexts(requests, Vars(s.e))
    ensures var g := AfterAll([s], m, NEW_GENERATOR, requests); !g.isDone && g.index == 0
  {
    StallsAtFirst(s.e);
    StaysStalled(s, m, NEW_GENERATOR, requests);
  }

  lemma {:induction false} CoGoesOn(s: Stmt, m: Meaning, c: Coroutine, requests: seq<Request>)
    requires Smooth(m) && Nexts(requests, Vars(s.e)) && !c.Unstarted?
    requires c.Waiting? ==> c.index == 0 && BoundIn(c.k, Vars(s.e)) && |requests| > Left(c.k)
    ensures CoAfterAll([s], m, c, requests) == Finished
    decreases |requests|
  {
    if requests != [] {
      var x := requests[0];
      assert x in requests;
      if c.Waiting? {
        ContinueStops(c.k, m, x.env, Vars(s.e), x.arg);
        ProceedEnds(s, m, Continue(c.k, m, x.env, x.arg));
      }
      hide Continue, Smooth, Vars, BoundIn, Proceed;
      CoGoesOn(s, m, CoResume([s], m, c, x.env, x.arg, false).c, requests[1..]);
    }
  }

  /** The coroutine stops once at each yield and is finished by the next call after the last. */
  lemma CoroutineFinishes(s: Stmt, m: Meaning, requests: seq<Request>)
    requires Smooth(m) && Nexts(requests, Vars(s.e)) && |requests| > Yields(s.e)
    ensures CoAfterAll([s], m, Unstarted, requests) == Finished
  {
    var x := requests[0];
    assert x in requests && [s][0] == s;
    EvalStops(s.e, m, x.env, Vars(s.e));
    ProceedEnds(s, m, Eval(s.e, m, x.env));
    hide Eval, Smooth, Vars, BoundIn, Proceed;
    var a := CoResume([s], m, Unstarted, x.env, x.arg, false);
    assert a == Proceed([s], m, 0, Eval(s.e, m, x.env));
    CoGoesOn(s, m, a.c, requests[1..]);
  }

  /** Two alike end alike. */
  lemma {:induction false} AlikeEnds(body: seq<Stmt>, m: Meaning, g: Generator, c: Coroutine, requests: seq<Request>)
    requires g.index <= |body| && (c.Waiting? ==> c.index < |body|) && (g.isDone <==> g.state == Completed)
    requires Alike(body, m, g, c, requests) && (c == Finished ==> g.isDone)
    ensures CoAfterAll(body, m, c, requests) == Finished ==> AfterAll(body, m, g, requests).isDone
    decreases |requests|
  {
    if requests != [] {
      var x := requests[0];
      var a, b := Resume(body, m, g, x.env, x.arg, x.isReturn), CoResume(body, m, c, x.env, x.arg, x.isReturn);
      DoneIsCompleted(body, m, g, x.env, x.arg, x.isReturn);
      CoFinishedIsDone(body, m, c, x.env, x.arg, x.isReturn);
      hide Resume, CoResume;
      AlikeEnds(body, m, a.g, b.c, requests[1..]);
    }
  }

  lemma CoFinishedIsDone(body: seq<Stmt>, m: Meaning, c: Coroutine, env: Env, arg: Value, isReturn: bool)
    requires c.Waiting? ==> c.index < |body|
    ensures var b := CoResume(body, m, c, env, arg, isReturn);
            b.c == Finished ==> b.reply.Failed? || b.reply.done
  {
    if c.Waiting? && !isReturn {
      ProceedFinishes(body, m, c.index, Continue(c.k, m, env, arg));
    } else if c.Unstarted? && !isReturn && body != [] {
      ProceedFinishes(body, m, 0, Eval(body[0].e, m, env));
    }
  }

  lemma {:induction false} ProceedFinishes(body: seq<Stmt>, m: Meaning, index: nat, c: Co)
    requires index < |body|
    ensures var b := Proceed(body, m, index, c); b.c == Finished ==> b.reply.Failed? || b.reply.done
    decreases |body| - index
  {
    if c.CoDone? && !body[index].Return? && index + 1 < |body| {
      ProceedFinishes(body, m, index + 1, Eval(body[index + 1].e, m, After(body[index], c.env, c.v)));
    }
  }

  /** The plainest smooth program. */
  const PLAIN := Meaning((env, f, v) => (env, Ok(Undefined)), (op, x, y) => Ok(Undefined), (op, v) => false)

  function Repeated(x: Request, n: nat): (requests: seq<Request>)
    ensures |requests| == n && forall y <- requests :: y == x
  {
    if n == 0 then [] else [x] + Repeated(x, n - 1)
  }

  function Uniform(names: set<string>, v: Value): Env {
    map x | x in names :: v
  }

  lemma SideBySideDiffers(s: Stmt)
    requires DistinctYields(s.e) && !Single(s.e)
    ensures var x := Request(Undefined, false, Uniform(Vars(s.e), Undefined));
            !Alike([s], PLAIN, NEW_GENERATOR, Unstarted, Repeated(x, Yields(s.e) + 1))
  {
    var x := Request(Undefined, false, Uniform(Vars(s.e), Undefined));
    var requests := Repeated(x, Yields(s.e) + 1);
    SideBySideNeverFinishes(s, PLAIN, requests);
    CoroutineFinishes(s, PLAIN, requests);
    if Alike([s], PLAIN, NEW_GENERATOR, Unstarted, requests) {
      AlikeEnds([s], PLAIN, NEW_GENERATOR, Unstarted, requests);
    }
  }

  // ---------- a variable or a call to the left of a yield ----------

  predicate LitsBelow(e: Expr, b: int) {
    match e
    case Lit(v) => v.Number? ==> v.n < b
    case Var(_) => true
    case Call(_, arg) => LitsBelow(arg, b)
    case Binary(_, left, right) => LitsBelow(left, b) && LitsBelow(right, b)
    case Yield(_, operand) => LitsBelow(operand, b)
  }

  function Bound(e: Expr): int {
    match e
    case Lit(v) => if v.Number? then v.n + 1 else 0
    case Var(_) => 0
    case Call(_, arg) => Bound(arg)
    case Binary(_, left, right) => if Bound(left) > Bound(right) then Bound(left) else Bound(right)
    case Yield(_, operand) => Bound(operand)
  }

  lemma {:induction false} LitsAreBelow(e: Expr, b: int)
    requires Bound(e) <= b
    ensures LitsBelow(e, b)
  {
    match e
    case Lit(_) =>
    case Var(_) =>
    case Call(_, arg) => LitsAreBelow(arg, b);
    case Yield(_, operand) => LitsAreBelow(operand, b);
    case Binary(_, left, right) =>
      LitsAreBelow(left, b);
      LitsAreBelow(right, b);
  }

  /** Number(b) stands for what has changed, Number(b + 1) for what was sent; both survive operators, the latter
      first. */
  function Mix(b: int, x: Value, y: Value): Value {
    if x == Number(b + 1) || y == Number(b + 1) then Number(b + 1)
    else if x == Number(b) || y == Number(b) then Number(b)
    else Undefined
  }

  /** Operators refuse a changed left operand beside a sent right one. */
  function Tracing(b: int): Meaning {
    Meaning((env: Env, f: nat, v: Value) => (env, Ok(Mix(b, v, if "" in env then env[""] else Undefined))),
            (op, x, y) => if x == Number(b) && y == Number(b + 1) then Err("changed") else Ok(Mix(b, x, y)),
            (op, v) => false)
  }

  predicate Old(b: int, v: Value) {
    v != Number(b) && v != Number(b + 1)
  }

  /** Without a yield an expression comes out old before the change, and changed after it unless it is a constant. */
  lemma {:induction false} TraceWithoutYield(e: Expr, b: int, env: Env, changed: bool)
    requires !HasYield(e) && LitsBelow(e, b) && Vars(e) + {""} <= env.Keys
    requires forall x <- env :: env[x] == if changed then Number(b) else Undefined
    ensures var c := Eval(e, Tracing(b), env);
            c.CoDone? && c.env == env && if changed && !Constant(e) then c.v == Number(b) else Old(b, c.v)
  {
    match e
    case Lit(_) =>
    case Var(_) =>
    case Call(_, arg) => TraceWithoutYield(arg, b, env, changed);
    case Binary(_, left, right) =>
      TraceWithoutYield(left, b, env, changed);
      TraceWithoutYield(right, b, env, changed);
  }

  /** Everything k holds was evaluated before the change, and no yield stands beside the one it is for. */
  predicate CleanKont(k: Kont, b: int, names: set<string>) {
    match k
    case Hole => true
    case InCall(_, k1) => CleanKont(k1, b, names)
    case InLeft(_, k1, right) =>
      CleanKont(k1, b, names) && LitsBelow(right, b) && !HasYield(right) && Vars(right) <= names
    case InRight(_, left, k1) => CleanKont(k1, b, names) && Old(b, left)
    case InYield(k1) => CleanKont(k1, b, names)
  }

  ghost predicate CleanStop(c: Co, b: int, names: set<string>, n: int) {
    c.CoYield? && CleanKont(c.k, b, names) && Left(c.k) == n
  }

  /** Before the change the coroutine stops at the innermost yield, */
  lemma {:induction false} TraceFirst(e: Expr, b: int, names: set<string>)
    requires Single(e) && LitsBelow(e, b) && Vars(e) <= names
    ensures var env := Uniform(names + {""}, Undefined);
            var c := Eval(e, Tracing(b), env);
            c.env == env && if HasYield(e) then CleanStop(c, b, names, Yields(e) - 1) else c.CoDone? && Old(b, c.v)
    decreases e
  {
    var env := Uniform(names + {""}, Undefined);
    match e
    case Lit(_) =>
    case Var(_) =>
    case Call(_, arg) => TraceFirst(arg, b, names);
    case Yield(_, operand) =>
      TraceFirst(operand, b, names);
      YieldsIffHas(operand);
    case Binary(_, left, right) =>
      YieldsIffHas(left);
      YieldsIffHas(right);
      TraceFirst(left, b, names);
      TraceFirst(right, b, names);
  }

  /** and after it, sent the mark each time, at the others one by one, and comes to its end without refusal. */
  lemma {:induction false} TraceContinue(k: Kont, b: int, names: set<string>)
    requires CleanKont(k, b, names)
    ensures var env := Uniform(names + {""}, Number(b));
            var c := Continue(k, Tracing(b), env, Number(b + 1));
            c.env == env
            && if Left(k) > 0 then CleanStop(c, b, names, Left(k) - 1) else c.CoDone? && c.v == Number(b + 1)
    decreases k
  {
    var env := Uniform(names + {""}, Number(b));
    match k
    case Hole =>
    case InCall(_, k1) => TraceContinue(k1, b, names);
    case InRight(_, _, k1) => TraceContinue(k1, b, names);
    case InYield(k1) => TraceContinue(k1, b, names);
    case InLeft(_, k1, right) =>
      TraceContinue(k1, b, names);
      YieldsIffHas(right);
      TraceWithoutYield(right, b, env, true);
  }

  /** On its way back to the yield id a run evaluates something again that is not a constant. */
  predicate Rereads(e: Expr, id: YieldId) {
    match e
    case Lit(_) => false
    case Var(_) => false
    case Call(_, arg) => Rereads(arg, id)
    case Binary(_, left, right) =>
      if HasYield(right) then !Constant(left) || Rereads(right, id) else Rereads(left, id)
    case Yield(i, operand) => i != id && Rereads(operand, id)
  }

  ghost predicate PausedRereading(e: Expr, r: RunResult) {
    && r.outcome.Yielded? && r.slots.paused.Some? && r.slots.paused.value in YieldIds(e)
    && Rereads(e, r.slots.paused.value)
  }

  /** The innermost yield, where the first run pauses, has all of them to its left. */
  lemma {:induction false} FirstPauseRereads(e: Expr, b: int, names: set<string>, slots: Slots)
    requires Single(e) && DistinctYields(e) && !Restartable(e) && LitsBelow(e, b) && Vars(e) <= names
    requires slots.paused == None
    ensures PausedRereading(e, Run(e, Tracing(b), Uniform(names + {""}, Undefined), slots))
    decreases e
  {
    var m, env := Tracing(b), Uniform(names + {""}, Undefined);
    match e
    case Call(_, arg) => FirstPauseRereads(arg, b, names, slots);
    case Yield(_, operand) => FirstPauseRereads(operand, b, names, slots);
    case Binary(_, left, right) =>
      if HasYield(right) {
        TraceFirst(left, b, names);
        RunWithoutYield(left, m, env, slots);
        FirstRun(right, m, env, slots);
        TraceFirst(right, b, names);
        if Constant(left) {
          FirstPauseRereads(right, b, names, slots);
        }
      } else {
        FirstPauseRereads(left, b, names, slots);
      }
  }

  /** After the change a run that rereads is refused, or pauses at the next yield with the rereading still to come. */
  lemma {:induction false} TraceRerun(e: Expr, b: int, names: set<string>, slots: Slots)
    requires Single(e) && DistinctYields(e) && LitsBelow(e, b) && Vars(e) <= names
    requires slots.paused.Some? && slots.paused.value in YieldIds(e)
    requires slots.sent == Some(Number(b + 1)) && slots.requestedReturn == None
    ensures var env := Uniform(names + {""}, Number(b));
            var r := Run(e, Tracing(b), env, slots);
            && r.env == env
            && if Rereads(e, slots.paused.value) then r.outcome.Threw? || PausedRereading(e, r)
               else r.outcome == Done(Number(b + 1))
                    || (r.outcome.Yielded? && r.slots.paused.Some? && r.slots.paused.value in YieldIds(e))
    decreases e
  {
    var m, env := Tracing(b), Uniform(names + {""}, Number(b));
    match e
    case Call(_, arg) => TraceRerun(arg, b, names, slots);
    case Yield(id, operand) =>
      if slots.paused.value != id {
        TraceRerun(operand, b, names, slots);
      }
    case Binary(_, left, right) =>
      if HasYield(right) {
        NoYield(left);
        TraceWithoutYield(left, b, env, true);
        RunWithoutYield(left, m, env, slots);
        TraceRerun(right, b, names, slots);
      } else {
        NoYield(right);
        TraceRerun(left, b, names, slots);
        TraceWithoutYield(right, b, env, true);
        RunWithoutYield(right, m, env, Run(left, m, env, slots).slots);
      }
  }

  function Again(b: int, names: set<string>): Request {
    Request(Number(b + 1), false, Uniform(names + {""}, Number(b)))
  }

  /** After the change the coroutine runs to its end, and the interpreter does not. */
  lemma {:induction false} RereadingDiffers(s: Stmt, b: int, names: set<string>, g: Generator, k: Kont)
    requires Single(s.e) && DistinctYields(s.e) && LitsBelow(s.e, b) && Vars(s.e) <= names
    requires g.state == SuspendedYield && !g.isDone && g.index == 0
    requires g.slots.paused.Some? && g.slots.paused.value in YieldIds(s.e) && Rereads(s.e, g.slots.paused.value)
    requires CleanKont(k, b, names)
    ensures !Alike([s], Tracing(b), g, Waiting(0, k), Repeated(Again(b, names), Left(k) + 1))
    decreases Left(k)
  {
    var m, x := Tracing(b), Again(b, names);
    var requests := Repeated(x, Left(k) + 1);
    assert requests[0] == x && requests[1..] == Repeated(x, Left(k)) && [s][0] == s;
    TraceRerun(s.e, b, names, Prepared(g, x.arg, false));
    TraceContinue(k, b, names);
    hide Run, Continue, DistinctYields, Single, YieldIds, Rereads, CleanKont, Tracing, Left, LitsBelow, Vars, Uniform;
    var a, c := Resume([s], m, g, x.env, x.arg, false), CoResume([s], m, Waiting(0, k), x.env, x.arg, false);
    ProceedEnds(s, m, Continue(k, m, x.env, x.arg));
    assert c == Proceed([s], m, 0, Continue(k, m, x.env, x.arg));
    if Left(k) > 0 && a.reply.Reply? {
      RereadingDiffers(s, b, names, a.g, c.c.k);
    }
  }

  lemma RereadDiffers(s: Stmt)
    requires DistinctYields(s.e) && Single(s.e) && !Restartable(s.e)
    ensures var b, names := Bound(s.e), Vars(s.e);
            var first := Request(Undefined, false, Uniform(names + {""}, Undefined));
            !Alike([s], Tracing(b), NEW_GENERATOR, Unstarted, [first] + Repeated(Again(b, names), Yields(s.e)))
  {
    var b, names := Bound(s.e), Vars(s.e);
    var x := Request(Undefined, false, Uniform(names + {""}, Undefined));
    var m, later := Tracing(b), Repeated(Again(b, names), Yields(s.e));
    LitsAreBelow(s.e, b);
    FirstPauseRereads(s.e, b, names, Slots(None, None, None));
    if !HasYield(s.e) { NoYield(s.e); }
    TraceFirst(s.e, b, names);
    YieldsIffHas(s.e);
    assert ([x] + later)[0] == x && ([x] + later)[1..] == later && [s][0] == s;
    hide Run, Eval, DistinctYields, Single, YieldIds, Rereads, CleanKont, Tracing, Left, LitsBelow, Vars, Uniform;
    var a, c := Resume([s], m, NEW_GENERATOR, x.env, x.arg, false), CoResume([s], m, Unstarted, x.env, x.arg, false);
    ProceedEnds(s, m, Eval(s.e, m, x.env));
    assert c == CoExecute([s], m, 0, x.env) == Proceed([s], m, 0, Eval(s.e, m, x.env));
    RereadingDiffers(s, b, names, a.g, c.c.k);
  }

  // ---------- the exact condition ----------

  /** A statement runs as the coroutine does, in every program and under every sequence of requests, whatever happens to
      the variables in between, exactly when no two of its yields stand side by side and nothing but constants stands
      to the left of one. */
  lemma CoroutineExactly(s: Stmt)
    requires DistinctYields(s.e)
    ensures (forall m, requests :: Alike([s], m, NEW_GENERATOR, Unstarted, requests)) <==> Restartable(s.e)
  {
    if Restartable(s.e) {
      forall m, requests ensures Alike([s], m, NEW_GENERATOR, Unstarted, requests) {
        GeneratorIsCoroutine([s], m, requests);
      }
    } else if Single(s.e) {
      RereadDiffers(s);
    } else {
      SideBySideDiffers(s);
    }
  }

  function Plus(x: Value, y: Value): Result<Value> {
    if x.Number? && y.Number? then Ok(Number(x.n + y.n)) else Err("TypeError")
  }

  const ADDING := Meaning((env, f, v) => (env, Ok(v)), (op, x, y) => Plus(x, y), (op, v) => false)

  /** return x + (yield 0), where x is 1 at the first next and 10 at the second, which sends 5: the interpreter
      returns 15 and the coroutine 6. */
  lemma ChangedVariable()
    ensures var body := [Return(Binary("+", Var("x"), Yield(1, Lit(Number(0)))))];
            var before, after := map["x" := Number(1)], map["x" := Number(10)];
            var a, b := Resume(body, ADDING, NEW_GENERATOR, before, Undefined, false),
                        CoResume(body, ADDING, Unstarted, before, Undefined, false);
            && a.reply == b.reply == Reply(Number(0), false) && a.g.index == 0 && b.c.Waiting? && b.c.index == 0
            && Resume(body, ADDING, a.g, after, Number(5), false).reply == Reply(Number(15), true)
            && CoResume(body, ADDING, b.c, after, Number(5), false).reply == Reply(Number(6), true)
  {
    var e := Binary("+", Var("x"), Yield(1, Lit(Number(0))));
    var body := [Return(e)];
    var before, after := map["x" := Number(1)], map["x" := Number(10)];
    assert Eval(e.right, ADDING, before) == CoYield(Number(0), Hole, before, []);
    assert Eval(e, ADDING, before) == CoYield(Number(0), InRight("+", Number(1), Hole), before, []);
    var slots := Slots(None, None, None);
    assert Run(e.right, ADDING, before, slots).outcome == Yielded(Number(0));
    assert Run(e, ADDING, before, slots) == RunResult(Yielded(Number(0)), slots.(paused := Some(1)), before, []);
    var b := CoResume(body, ADDING, Unstarted, before, Undefined, false);
    assert b == Proceed(body, ADDING, 0, Eval(e, ADDING, before));
    assert Continue(InRight("+", Number(1), Hole), ADDING, after, Number(5)) == CoDone(Number(6), after, []);
    var sent := Slots(Some(1), Some(Number(5)), None);
    assert Run(e.right, ADDING, after, sent).outcome == Done(Number(5));
    assert Run(e, ADDING, after, sent).outcome == Done(Number(15));
  }
}
