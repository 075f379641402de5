/** await by throwing and running the statement again.

    An await suspends by throwing out of the whole statement; the frame keeps the settled result under the id of
    that await, and the statement is evaluated again from its start. A result is erased when it is used, so the
    awaits to the left of the one that suspended have to wait anew. This module proves what that costs and that it
    computes the right thing: the number of runs, what each run evaluates, and the value of the whole body. */
module AwaitRerun {
  import opened Wrappers

  datatype Value = Undefined | Number(n: int) | Text(s: string)

  type Env = map<string, Value>
  type AwaitId = nat

  datatype Expr =
    | Lit(v: Value)
    | Var(name: string)
    | Call(f: nat, arg: Expr)
    | Binary(op: string, left: Expr, right: Expr)
    | Await(id: AwaitId, operand: Expr)

  /** The program around the expression: what functions and operators compute, when a short-circuiting operator
      stops at its left operand (never, for the others), and how the promise an await is given settles. The same
      call or promise always gives the same answer. */
  datatype Meaning = Meaning(
    call: (nat, Value) -> Result<Value>,
    binary: (string, Value, Value) -> Result<Value>,
    stops: (string, Value) -> bool,
    settle: (AwaitId, Value) -> Result<Value>)

  /** awaited_results and awaited_exceptions of a frame. */
  type Stamps = map<AwaitId, Result<Value>>

  datatype Event = Called(f: nat) | Awaited(id: AwaitId)

  datatype Outcome = Done(v: Value) | Threw(message: string) | Suspended(id: AwaitId, operand: Value)

  datatype RunResult = RunResult(outcome: Outcome, stamps: Stamps, log: seq<Event>)

  function Raise(r: Result<Value>): Outcome {
    match r
    case Ok(v) => Done(v)
    case Err(e) => Threw(e)
  }

  /** One evaluation of the expression against the stamps, to a value, an exception or a suspension. */
  function Run(e: Expr, m: Meaning, env: Env, stamps: Stamps): RunResult {
    match e
    case Lit(v) => RunResult(Done(v), stamps, [])
    case Var(x) => RunResult(if x in env then Done(env[x]) else Threw("ReferenceError"), stamps, [])
    case Call(f, arg) =>
      var a := Run(arg, m, env, stamps);
      if a.outcome.Done? then RunResult(Raise(m.call(f, a.outcome.v)), a.stamps, a.log + [Called(f)]) else a
    case Binary(op, left, right) =>
      var l := Run(left, m, env, stamps);
      if !l.outcome.Done? || m.stops(op, l.outcome.v) then l
      else
        var r := Run(right, m, env, l.stamps);
        RunResult(if r.outcome.Done? then Raise(m.binary(op, l.outcome.v, r.outcome.v)) else r.outcome,
                  r.stamps, l.log + r.log)
    case Await(id, operand) =>
      if id in stamps then RunResult(Raise(stamps[id]), stamps - {id}, [])
      else
        var o := Run(operand, m, env, stamps);
        if o.outcome.Done? then RunResult(Suspended(id, o.outcome.v), o.stamps, o.log + [Awaited(id)]) else o
  }

  // ---------- what it should compute ----------

  /** Direct evaluation: an await is its operand's settled value, and everything is evaluated once. */
  function Direct(e: Expr, m: Meaning, env: Env): Result<Value> {
    match e
    case Lit(v) => Ok(v)
    case Var(x) => if x in env then Ok(env[x]) else Err("ReferenceError")
    case Call(f, arg) =>
      var a := Direct(arg, m, env);
      if a.Ok? then m.call(f, a.value) else a
    case Binary(op, left, right) =>
      var l := Direct(left, m, env);
      if l.Err? || m.stops(op, l.value) then l
      else
        var r := Direct(right, m, env);
        if r.Err? then r else m.binary(op, l.value, r.value)
    case Await(id, operand) =>
      var o := Direct(operand, m, env);
      if o.Ok? then m.settle(id, o.value) else o
  }

  /** Whether direct evaluation of a binary goes on to its right operand. */
  predicate GoesRight(e: Expr, m: Meaning, env: Env)
    requires e.Binary?
  {
    var l := Direct(e.left, m, env);
    l.Ok? && !m.stops(e.op, l.value)
  }

  // ---------- where a statement stands between two runs ----------

  /** A digit per operand: a binary has the digits of its left operand below those of its right one, an await
      is either still busy with its operand or has its result stamped. */
  datatype Position = Fresh | Both(low: Position, high: Position) | InOperand(p: Position) | HasStamp

  ghost predicate At(e: Expr, m: Meaning, env: Env, p: Position) {
    match e
    case Lit(_) => p == Fresh
    case Var(_) => p == Fresh
    case Call(_, arg) => At(arg, m, env, p)
    case Await(_, operand) =>
      if p.HasStamp? then Direct(operand, m, env).Ok? else p.InOperand? && At(operand, m, env, p.p)
    case Binary(_, left, right) =>
      if GoesRight(e, m, env) then p.Both? && At(left, m, env, p.low) && At(right, m, env, p.high)
      else At(left, m, env, p)
  }

  ghost function First(e: Expr, m: Meaning, env: Env): (p: Position)
    ensures At(e, m, env, p)
  {
    match e
    case Lit(_) => Fresh
    case Var(_) => Fresh
    case Call(_, arg) => First(arg, m, env)
    case Await(_, operand) => InOperand(First(operand, m, env))
    case Binary(_, left, right) =>
      if GoesRight(e, m, env) then Both(First(left, m, env), First(right, m, env)) else First(left, m, env)
  }

  ghost predicate IsLast(e: Expr, m: Meaning, env: Env, p: Position)
    requires At(e, m, env, p)
  {
    match e
    case Lit(_) => true
    case Var(_) => true
    case Call(_, arg) => IsLast(arg, m, env, p)
    case Await(_, operand) => p.HasStamp? || (Direct(operand, m, env).Err? && IsLast(operand, m, env, p.p))
    case Binary(_, left, right) =>
      if GoesRight(e, m, env) then IsLast(left, m, env, p.low) && IsLast(right, m, env, p.high)
      else IsLast(left, m, env, p)
  }

  /** One suspension further: the increment of the counter, with its carry. */
  ghost function Next(e: Expr, m: Meaning, env: Env, p: Position): (q: Position)
    requires At(e, m, env, p) && !IsLast(e, m, env, p)
    ensures At(e, m, env, q)
  {
    match e
    case Call(_, arg) => Next(arg, m, env, p)
    case Await(_, operand) =>
      if IsLast(operand, m, env, p.p) then HasStamp else InOperand(Next(operand, m, env, p.p))
    case Binary(_, left, right) =>
      if !GoesRight(e, m, env) then Next(left, m, env, p)
      else if IsLast(left, m, env, p.low) then Both(First(left, m, env), Next(right, m, env, p.high))
      else Both(Next(left, m, env, p.low), p.high)
  }

  // ---------- the stamps of a position, and what is run there ----------

  function Ids(e: Expr): set<AwaitId> {
    match e
    case Lit(_) => {}
    case Var(_) => {}
    case Call(_, arg) => Ids(arg)
    case Binary(_, left, right) => Ids(left) + Ids(right)
    case Await(id, operand) => {id} + Ids(operand)
  }

  /** The parser gives every await its own id. */
  predicate DistinctIds(e: Expr) {
    match e
    case Lit(_) => true
    case Var(_) => true
    case Call(_, arg) => DistinctIds(arg)
    case Binary(_, left, right) => DistinctIds(left) && DistinctIds(right) && Ids(left) !! Ids(right)
    case Await(id, operand) => DistinctIds(operand) && id !in Ids(operand)
  }

  ghost function StampsAt(e: Expr, m: Meaning, env: Env, p: Position): Stamps
    requires At(e, m, env, p)
  {
    match e
    case Lit(_) => map[]
    case Var(_) => map[]
    case Call(_, arg) => StampsAt(arg, m, env, p)
    case Await(id, operand) =>
      if p.HasStamp? then map[id := m.settle(id, Direct(operand, m, env).value)] else StampsAt(operand, m, env, p.p)
    case Binary(_, left, right) =>
      if GoesRight(e, m, env) then StampsAt(left, m, env, p.low) + StampsAt(right, m, env, p.high)
      else StampsAt(left, m, env, p)
  }

  lemma {:induction false} StampsAreOwn(e: Expr, m: Meaning, env: Env, p: Position)
    requires At(e, m, env, p)
    ensures StampsAt(e, m, env, p).Keys <= Ids(e)
  {
    match e
    case Lit(_) =>
    case Var(_) =>
    case Call(_, arg) => StampsAreOwn(arg, m, env, p);
    case Await(_, operand) => if p.InOperand? { StampsAreOwn(operand, m, env, p.p); }
    case Binary(_, left, right) =>
      if GoesRight(e, m, env) {
        StampsAreOwn(left, m, env, p.low);
        StampsAreOwn(right, m, env, p.high);
      } else {
        StampsAreOwn(left, m, env, p);
      }
  }

  lemma {:induction false} CleanStart(e: Expr, m: Meaning, env: Env)
    ensures StampsAt(e, m, env, First(e, m, env)) == map[]
  {
    match e
    case Lit(_) =>
    case Var(_) =>
    case Call(_, arg) => CleanStart(arg, m, env);
    case Await(_, operand) => CleanStart(operand, m, env);
    case Binary(_, left, right) => CleanStart(left, m, env); CleanStart(right, m, env);
  }

  /** What the run from position p evaluates, in order. */
  ghost function Segment(e: Expr, m: Meaning, env: Env, p: Position): seq<Event>
    requires At(e, m, env, p)
  {
    match e
    case Lit(_) => []
    case Var(_) => []
    case Call(f, arg) =>
      Segment(arg, m, env, p) + if IsLast(arg, m, env, p) && Direct(arg, m, env).Ok? then [Called(f)] else []
    case Await(id, operand) =>
      if p.HasStamp? then []
      else
        Segment(operand, m, env, p.p)
        + if IsLast(operand, m, env, p.p) && Direct(operand, m, env).Ok? then [Awaited(id)] else []
    case Binary(_, left, right) =>
      if !GoesRight(e, m, env) then Segment(left, m, env, p)
      else Segment(left, m, env, p.low) + if IsLast(left, m, env, p.low) then Segment(right, m, env, p.high) else []
  }

  /** Resuming stamps the settled result under the id that suspended. */
  function Stamped(r: RunResult, m: Meaning): Stamps
    requires r.outcome.Suspended?
  {
    r.stamps[r.outcome.id := m.settle(r.outcome.id, r.outcome.operand)]
  }

  /** The run from p consumes the stamped awaits up to the first that is not stamped, suspends there and leaves the
      stamps of the next position; from the last position it ends as direct evaluation does, with no stamp left. */
  ghost predicate RunsAsForetold(e: Expr, m: Meaning, env: Env, p: Position, rest: Stamps)
    requires At(e, m, env, p)
  {
    var r := Run(e, m, env, StampsAt(e, m, env, p) + rest);
    && r.log == Segment(e, m, env, p)
    && if IsLast(e, m, env, p) then r.outcome == Raise(Direct(e, m, env)) && r.stamps == rest
       else r.outcome.Suspended? && Stamped(r, m) == StampsAt(e, m, env, Next(e, m, env, p)) + rest
  }

  lemma StampsSplit(e: Expr, m: Meaning, env: Env, p: Position, rest: Stamps)
    requires e.Binary? && GoesRight(e, m, env) && At(e, m, env, p)
    ensures StampsAt(e, m, env, p) + rest
         == StampsAt(e.left, m, env, p.low) + (StampsAt(e.right, m, env, p.high) + rest)
  {
  }

  lemma LeftSuspends(e: Expr, m: Meaning, env: Env, p: Position, rest: Stamps)
    requires e.Binary? && GoesRight(e, m, env) && At(e, m, env, p) && !IsLast(e.left, m, env, p.low)
    requires RunsAsForetold(e.left, m, env, p.low, StampsAt(e.right, m, env, p.high) + rest)
    ensures RunsAsForetold(e, m, env, p, rest)
  {
    StampsSplit(e, m, env, p, rest);
    StampsSplit(e, m, env, Next(e, m, env, p), rest);
  }

  /** A run whose left operand completes is the left run followed by the right one. */
  lemma RunBoth(e: Expr, m: Meaning, env: Env, stamps: Stamps)
    requires e.Binary? && GoesRight(e, m, env)
    requires Run(e.left, m, env, stamps).outcome == Raise(Direct(e.left, m, env))
    ensures var l := Run(e.left, m, env, stamps);
            var r := Run(e.right, m, env, l.stamps);
            Run(e, m, env, stamps) ==
              RunResult(if r.outcome.Done? then Raise(m.binary(e.op, l.outcome.v, r.outcome.v)) else r.outcome,
                        r.stamps, l.log + r.log)
  {
  }

  lemma RightRuns(e: Expr, m: Meaning, env: Env, p: Position, rest: Stamps)
    requires e.Binary? && GoesRight(e, m, env) && At(e, m, env, p) && IsLast(e.left, m, env, p.low)
    requires RunsAsForetold(e.left, m, env, p.low, StampsAt(e.right, m, env, p.high) + rest)
    requires RunsAsForetold(e.right, m, env, p.high, rest)
    ensures RunsAsForetold(e, m, env, p, rest)
  {
    StampsSplit(e, m, env, p, rest);
    RunBoth(e, m, env, StampsAt(e, m, env, p) + rest);
    assert Segment(e, m, env, p) == Segment(e.left, m, env, p.low) + Segment(e.right, m, env, p.high);
    assert IsLast(e, m, env, p) <==> IsLast(e.right, m, env, p.high);
    assert IsLast(e, m, env, p) ==>
        var l, r := Direct(e.left, m, env), Direct(e.right, m, env);
        r.Err? || Direct(e, m, env) == m.binary(e.op, l.value, r.value);
    if !IsLast(e, m, env, p) {
      NextOnRight(e, m, env, p, rest);
    }
    hide Run, Segment, IsLast, StampsAt, Next, Direct;
  }

  /** The carry: when the left operand has run out, its digits start over. */
  lemma NextOnRight(e: Expr, m: Meaning, env: Env, p: Position, rest: Stamps)
    requires e.Binary? && GoesRight(e, m, env) && At(e, m, env, p)
    requires IsLast(e.left, m, env, p.low) && !IsLast(e.right, m, env, p.high)
    ensures !IsLast(e, m, env, p)
    ensures StampsAt(e, m, env, Next(e, m, env, p)) + rest
            == StampsAt(e.right, m, env, Next(e.right, m, env, p.high)) + rest
  {
    CleanStart(e.left, m, env);
    var q := Next(e, m, env, p);
    assert StampsAt(e, m, env, q) == StampsAt(e.left, m, env, q.low) + StampsAt(e.right, m, env, q.high);
  }

  lemma CallRuns(e: Expr, m: Meaning, env: Env, p: Position, rest: Stamps)
    requires e.Call? && At(e, m, env, p) && RunsAsForetold(e.arg, m, env, p, rest)
    ensures RunsAsForetold(e, m, env, p, rest)
  {
  }

  lemma AwaitRuns(e: Expr, m: Meaning, env: Env, p: Position, rest: Stamps)
    requires e.Await? && DistinctIds(e) && At(e, m, env, p) && e.id !in rest
    requires p.InOperand? ==> RunsAsForetold(e.operand, m, env, p.p, rest)
    ensures RunsAsForetold(e, m, env, p, rest)
  {
    if p.HasStamp? {
      assert (StampsAt(e, m, env, p) + rest) - {e.id} == rest;
    } else {
      StampsAreOwn(e.operand, m, env, p.p);
    }
  }

  lemma LeftOnlyRuns(e: Expr, m: Meaning, env: Env, p: Position, rest: Stamps)
    requires e.Binary? && !GoesRight(e, m, env) && At(e, m, env, p) && RunsAsForetold(e.left, m, env, p, rest)
    ensures RunsAsForetold(e, m, env, p, rest)
  {
  }

  lemma LeafRuns(e: Expr, m: Meaning, env: Env, p: Position, rest: Stamps)
    requires (e.Lit? || e.Var?) && At(e, m, env, p)
    ensures RunsAsForetold(e, m, env, p, rest)
  {
    assert StampsAt(e, m, env, p) + rest == rest;
  }

  lemma {:induction false} EveryRun(e: Expr, m: Meaning, env: Env, p: Position, rest: Stamps)
    requires DistinctIds(e) && At(e, m, env, p) && rest.Keys !! Ids(e)
    ensures RunsAsForetold(e, m, env, p, rest)
    decreases e
  {
    hide RunsAsForetold, Direct, GoesRight, IsLast, StampsAt;
    match e
    case Lit(_) => LeafRuns(e, m, env, p, rest);
    case Var(_) => LeafRuns(e, m, env, p, rest);
    case Call(_, arg) =>
      EveryRun(arg, m, env, p, rest);
      CallRuns(e, m, env, p, rest);
    case Await(id, operand) =>
      if p.InOperand? {
        EveryRun(operand, m, env, p.p, rest);
      }
      AwaitRuns(e, m, env, p, rest);
    case Binary(_, _, _) =>
      if GoesRight(e, m, env) {
        StampsAreOwn(e.right, m, env, p.high);
        EveryRun(e.left, m, env, p.low, StampsAt(e.right, m, env, p.high) + rest);
        if IsLast(e.left, m, env, p.low) {
          EveryRun(e.right, m, env, p.high, rest);
          RightRuns(e, m, env, p, rest);
        } else {
          LeftSuspends(e, m, env, p, rest);
        }
      } else {
        EveryRun(e.left, m, env, p, rest);
        LeftOnlyRuns(e, m, env, p, rest);
      }
  }
}
