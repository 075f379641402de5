/** The cost of re-running for programs with effects. A program carries a state of its own, which every call and every
    wait may change: the same call or promise need not answer the same way twice, variables may be assigned between two
    runs, and a counter or a queue of promises behind a function is just such a state. What evaluation yields is then
    its own affair; how often it is run, and what it evaluates each time, is not. */
module AwaitEffects {
  import opened Wrappers
  import opened Arith
  import opened AwaitRerun
  import opened AwaitCost

  /** settle is the wait for a promise: whatever ran meanwhile is in the state it returns. */
  datatype Program<!S> = Program(
    read: (S, string) -> Result<Value>,
    call: (S, nat, Value) -> (S, Result<Value>),
    binary: (S, string, Value, Value) -> Result<Value>,
    stops: (S, string, Value) -> bool,
    settle: (S, AwaitId, Value) -> (S, Result<Value>),
    assign: (S, string, Value) -> S)

  datatype RunIn<S> = RunIn(r: RunResult, s: S)

  /** One evaluation, as in Run, threading the state. */
  function Eval<S>(e: Expr, p: Program<S>, s: S, stamps: Stamps): RunIn<S> {
    match e
    case Lit(v) => RunIn(RunResult(Done(v), stamps, []), s)
    case Var(x) => RunIn(RunResult(Raise(p.read(s, x)), stamps, []), s)
    case Call(f, arg) =>
      var a := Eval(arg, p, s, stamps);
      if a.r.outcome.Done? then
        var c := p.call(a.s, f, a.r.outcome.v);
        RunIn(RunResult(Raise(c.1), a.r.stamps, a.r.log + [Called(f)]), c.0)
      else a
    case Binary(op, left, right) =>
      var l := Eval(left, p, s, stamps);
      if !l.r.outcome.Done? || p.stops(l.s, op, l.r.outcome.v) then l
      else
        var r := Eval(right, p, l.s, l.r.stamps);
        RunIn(RunResult(if r.r.outcome.Done? then Raise(p.binary(r.s, op, l.r.outcome.v, r.r.outcome.v))
                        else r.r.outcome,
                        r.r.stamps, l.r.log + r.r.log), r.s)
    case Await(id, operand) =>
      if id in stamps then RunIn(RunResult(Raise(stamps[id]), stamps - {id}, []), s)
      else
        var o := Eval(operand, p, s, stamps);
        if o.r.outcome.Done?
        then RunIn(RunResult(Suspended(id, o.r.outcome.v), o.r.stamps, o.r.log + [Awaited(id)]), o.s) else o
  }

  datatype DrivenIn<S> = DrivenIn(d: Driven, s: S)

  /** Runs the statement and resumes it after each suspension, for as many resumptions as are granted. */
  function DriveIn<S>(e: Expr, p: Program<S>, s: S, stamps: Stamps, resumptions: nat): DrivenIn<S>
    decreases resumptions
  {
    var x := Eval(e, p, s, stamps);
    if x.r.outcome.Suspended? && resumptions > 0 then
      var (s1, settled) := p.settle(x.s, x.r.outcome.id, x.r.outcome.operand);
      var y := DriveIn(e, p, s1, x.r.stamps[x.r.outcome.id := settled], resumptions - 1);
      DrivenIn(Driven(y.d.outcome, y.d.suspensions + 1, x.r.log + y.d.log), y.s)
    else DrivenIn(Driven(x.r.outcome, 0, x.r.log), x.s)
  }

  // ---------- what may not depend on the state ----------

  /** Which calls throw, which operators fail or stop, which awaits reject: calls by the number of the function,
      operators by name, awaits by id. These are labels the program is free to tell apart, so two occurrences of &&
      that stop differently are two labels for it. */
  datatype Pattern = Pattern(fails: set<nat>, broken: set<string>, stops: set<string>, rejects: set<AwaitId>)

  /** The values are free; only whether there is one follows the pattern, and neither calls nor waits bind a name. */
  ghost predicate Steady<S(!new)>(p: Program<S>, t: Pattern, names: S -> set<string>) {
    && (forall s, x :: p.read(s, x).Ok? <==> x in names(s))
    && (forall s, f, v :: (p.call(s, f, v).1.Ok? <==> f !in t.fails) && names(p.call(s, f, v).0) == names(s))
    && (forall s, op, x, y :: p.binary(s, op, x, y).Ok? <==> op !in t.broken)
    && (forall s, op, v :: p.stops(s, op, v) <==> op in t.stops)
    && (forall s, id, v :: (p.settle(s, id, v).1.Ok? <==> id !in t.rejects) && names(p.settle(s, id, v).0) == names(s))
  }

  function Answer(ok: bool): Result<Value> {
    if ok then Ok(Undefined) else Err("")
  }

  /** The plainest program of that pattern: one without state in which every value is undefined. */
  function Shape(t: Pattern): Meaning {
    Meaning((f, v) => Answer(f !in t.fails), (op, x, y) => Answer(op !in t.broken), (op, v) => op in t.stops,
            (id, v) => Answer(id !in t.rejects))
  }

  function EnvOf(names: set<string>): Env {
    map x | x in names :: Undefined
  }

  predicate SameKind(a: Outcome, b: Outcome) {
    match a
    case Done(_) => b.Done?
    case Threw(_) => b.Threw?
    case Suspended(id, _) => b.Suspended? && b.id == id
  }

  ghost predicate SameStamps(a: Stamps, b: Stamps) {
    a.Keys == b.Keys && forall id <- a.Keys :: a[id].Ok? <==> b[id].Ok?
  }

  // ---------- the program does what its shape does ----------

  /** A run evaluates the same calls and awaits, consumes and leaves the same stamps, and ends the same way. */
  lemma {:induction false} RunsLikeShape<S(!new)>(e: Expr, p: Program<S>, t: Pattern, names: S -> set<string>, s: S,
                                                  stamps: Stamps, env: Env, plain: Stamps)
    requires Steady(p, t, names) && SameStamps(stamps, plain) && env.Keys == names(s)
    ensures var x, y := Eval(e, p, s, stamps), Run(e, Shape(t), env, plain);
            && SameKind(x.r.outcome, y.outcome) && SameStamps(x.r.stamps, y.stamps) && x.r.log == y.log
            && names(x.s) == names(s)
  {
    match e
    case Lit(_) =>
    case Var(_) =>
    case Call(_, arg) => RunsLikeShape(arg, p, t, names, s, stamps, env, plain);
    case Await(id, operand) => if id !in stamps { RunsLikeShape(operand, p, t, names, s, stamps, env, plain); }
    case Binary(_, left, right) =>
      RunsLikeShape(left, p, t, names, s, stamps, env, plain);
      var x, y := Eval(left, p, s, stamps), Run(left, Shape(t), env, plain);
      RunsLikeShape(right, p, t, names, x.s, x.r.stamps, env, y.stamps);
  }

  lemma {:induction false} DrivesLikeShape<S(!new)>(e: Expr, p: Program<S>, t: Pattern, names: S -> set<string>, s: S,
                                                    stamps: Stamps, env: Env, plain: Stamps, resumptions: nat)
    requires Steady(p, t, names) && SameStamps(stamps, plain) && env.Keys == names(s)
    ensures var x, y := DriveIn(e, p, s, stamps, resumptions).d, Drive(e, Shape(t), env, plain, resumptions);
            SameKind(x.outcome, y.outcome) && x.suspensions == y.suspensions && x.log == y.log
    decreases resumptions
  {
    RunsLikeShape(e, p, t, names, s, stamps, env, plain);
    var x, y := Eval(e, p, s, stamps), Run(e, Shape(t), env, plain);
    if x.r.outcome.Suspended? && resumptions > 0 {
      var (s1, settled) := p.settle(x.s, x.r.outcome.id, x.r.outcome.operand);
      DrivesLikeShape(e, p, t, names, s1, x.r.stamps[x.r.outcome.id := settled], env, Stamped(y, Shape(t)),
                      resumptions - 1);
    }
  }

  /** Whatever its calls do and its promises bring, a statement is suspended exactly Runs - 1 times, evaluates each of
      its calls and awaits exactly Times times, and fails exactly when its shape fails. */
  lemma RerunCounts<S(!new)>(e: Expr, p: Program<S>, t: Pattern, names: S -> set<string>, s: S, env: Env,
                             resumptions: nat, ev: Event)
    requires DistinctIds(e) && Steady(p, t, names) && env.Keys == names(s)
    ensures Runs(e, Shape(t), env) > 0
    ensures var m, d := Shape(t), DriveIn(e, p, s, map[], resumptions).d;
            if resumptions < Runs(e, m, env) - 1 then d.outcome.Suspended?
            else
              && !d.outcome.Suspended? && (d.outcome.Done? <==> Direct(e, m, env).Ok?)
              && d.suspensions == Runs(e, m, env) - 1 && Count(d.log, ev) == Times(e, m, env, ev)
  {
    RerunIsDirect(e, Shape(t), env, resumptions, ev);
    DrivesLikeShape(e, p, t, names, s, map[], env, map[], resumptions);
  }

  // ---------- awaits side by side ----------

  function Vars(e: Expr): set<string> {
    match e
    case Lit(_) => {}
    case Var(x) => {x}
    case Call(_, arg) => Vars(arg)
    case Binary(_, left, right) => Vars(left) + Vars(right)
    case Await(_, operand) => Vars(operand)
  }

  /** The awaits of an expression, from left to right. */
  function Awaits(e: Expr): seq<AwaitId> {
    match e
    case Lit(_) => []
    case Var(_) => []
    case Call(_, arg) => Awaits(arg)
    case Binary(_, left, right) => Awaits(left) + Awaits(right)
    case Await(id, operand) => Awaits(operand) + [id]
  }

  /** Nothing throws, stops short or rejects. */
  const SMOOTH := Pattern({}, {}, {}, {})

  lemma {:induction false} SmoothReachesAll(e: Expr, names: set<string>)
    requires Vars(e) <= names
    ensures Direct(e, Shape(SMOOTH), EnvOf(names)).Ok?
    ensures Reached(e, Shape(SMOOTH), EnvOf(names)) == Awaits(e)
  {
    match e
    case Lit(_) =>
    case Var(_) =>
    case Call(_, arg) => SmoothReachesAll(arg, names);
    case Await(_, operand) => SmoothReachesAll(operand, names);
    case Binary(_, left, right) =>
      SmoothReachesAll(left, names);
      SmoothReachesAll(right, names);
  }

  /** With n awaits side by side, none short-circuited, whose promises all fulfil, and calls that may do anything but
      throw: exactly 2^n - 1 suspensions, and the i-th await, counted from 0, is evaluated 2^(n-1-i) times. */
  lemma SiblingsCountInBinary<S(!new)>(e: Expr, p: Program<S>, names: S -> set<string>, s: S, resumptions: nat)
    requires DistinctIds(e) && Flat(e) && Steady(p, SMOOTH, names) && Vars(e) <= names(s)
    ensures var d, n := DriveIn(e, p, s, map[], resumptions).d, |Awaits(e)|;
            if resumptions < Pow2(n) - 1 then d.outcome.Suspended?
            else
              && d.outcome.Done? && d.suspensions == Pow2(n) - 1
              && forall i | 0 <= i < n :: Count(d.log, Awaited(Awaits(e)[i])) == Pow2(n - 1 - i)
  {
    var m, env := Shape(SMOOTH), EnvOf(names(s));
    SmoothReachesAll(e, names(s));
    SiblingsCount(e, m, env);
    forall ev ensures resumptions >= Runs(e, m, env) - 1 ==>
                        Count(DriveIn(e, p, s, map[], resumptions).d.log, ev) == Times(e, m, env, ev)
    {
      RerunCounts(e, p, SMOOTH, names, s, env, resumptions, ev);
    }
    RerunCounts(e, p, SMOOTH, names, s, env, resumptions, Called(0));
  }
}
