/** The body of an async function: statements executed in a frame that can be suspended inside any of them. */
module AsyncBody {
  import opened Wrappers
  import opened AwaitRerun
  import opened AwaitCost

  datatype Stmt = Evaluate(e: Expr) | Assign(name: string, e: Expr) | Return(e: Expr)

  datatype Execution =
    | Paused(index: nat, env: Env, stamps: Stamps, id: AwaitId, operand: Value)
    | Finished(result: Result<Value>)

  function After(s: Stmt, env: Env, v: Value): Env {
    if s.Assign? then env[s.name := v] else env
  }

  /** Executes statements from index on until one suspends, returns or throws, or the body ends. */
  function Exec(body: seq<Stmt>, index: nat, m: Meaning, env: Env, stamps: Stamps): Execution
    requires index <= |body|
    decreases |body| - index
  {
    if index == |body| then Finished(Ok(Undefined))
    else
      var s := body[index];
      var r := Run(s.e, m, env, stamps);
      match r.outcome
      case Suspended(id, operand) => Paused(index, env, r.stamps, id, operand)
      case Threw(e) => Finished(Err(e))
      case Done(v) =>
        if s.Return? then Finished(Ok(v)) else Exec(body, index + 1, m, After(s, env, v), r.stamps)
  }

  /** The straight-line meaning of the rest of a body. */
  function DirectBody(body: seq<Stmt>, index: nat, m: Meaning, env: Env): Result<Value>
    requires index <= |body|
    decreases |body| - index
  {
    if index == |body| then Ok(Undefined)
    else
      var r := Direct(body[index].e, m, env);
      if r.Err? || body[index].Return? then r
      else DirectBody(body, index + 1, m, After(body[index], env, r.value))
  }

  /** How often the body is suspended. */
  function Suspensions(body: seq<Stmt>, index: nat, m: Meaning, env: Env): int
    requires index <= |body|
    decreases |body| - index
  {
    if index == |body| then 0
    else
      var r := Direct(body[index].e, m, env);
      Runs(body[index].e, m, env) - 1
      + if r.Err? || body[index].Return? then 0
        else Suspensions(body, index + 1, m, After(body[index], env, r.value))
  }

  /** Executes, and resumes with the settled result after each suspension, up to the given number of times. */
  function Resumed(body: seq<Stmt>, index: nat, m: Meaning, env: Env, stamps: Stamps, resumptions: nat): (x: Execution)
    requires index <= |body|
    decreases resumptions
  {
    var x := Exec(body, index, m, env, stamps);
    ExecIndex(body, index, m, env, stamps);
    if x.Paused? && resumptions > 0
    then Resumed(body, x.index, m, x.env, x.stamps[x.id := m.settle(x.id, x.operand)], resumptions - 1)
    else x
  }

  lemma {:induction false} ExecIndex(body: seq<Stmt>, index: nat, m: Meaning, env: Env, stamps: Stamps)
    requires index <= |body|
    ensures var x := Exec(body, index, m, env, stamps); x.Paused? ==> x.index <= |body|
    decreases |body| - index
  {
    if index < |body| {
      var r := Run(body[index].e, m, env, stamps);
      if r.outcome.Done? && !body[index].Return? {
        ExecIndex(body, index + 1, m, After(body[index], env, r.outcome.v), r.stamps);
      }
    }
  }

  lemma {:induction false} ResumedFrom(body: seq<Stmt>, index: nat, m: Meaning, env: Env, p: Position, resumptions: nat)
    requires index < |body| && forall s <- body :: DistinctIds(s.e)
    requires At(body[index].e, m, env, p)
    ensures var x := Resumed(body, index, m, env, StampsAt(body[index].e, m, env, p), resumptions);
            var left := Suspensions(body, index, m, env) - Rank(body[index].e, m, env, p);
            left >= 0 && if resumptions < left then x.Paused? else x == Finished(DirectBody(body, index, m, env))
    decreases |body| - index, resumptions
  {
    var s := body[index];
    assert s in body;
    hide Run, At, IsLast, Rank, Runs, Segment, Seen, StampsAt, Times, Direct, DistinctIds;
    LastCounts(s.e, m, env, p, Called(0));
    if !IsLast(s.e, m, env, p) {
      var q := Next(s.e, m, env, p);
      ResumedOnce(body, index, m, env, p, resumptions);
      SuspensionsBound(body, index, m, env);
      RankBelow(s.e, m, env, q);
      if resumptions > 0 {
        ResumedFrom(body, index, m, env, q, resumptions - 1);
      }
    } else if Direct(s.e, m, env).Err? || s.Return? {
      RunFrom(s.e, m, env, p);
    } else {
      var env' := After(s, env, Direct(s.e, m, env).value);
      ResumedSame(body, index, m, env, p, resumptions);
      if index + 1 < |body| {
        CleanStart(body[index + 1].e, m, env');
        FirstCounts(body[index + 1].e, m, env', Called(0));
        ResumedFrom(body, index + 1, m, env', First(body[index + 1].e, m, env'), resumptions);
      }
    }
  }

  /** A statement that is not through suspends, and a resumption takes it one position further. */
  lemma ResumedOnce(body: seq<Stmt>, index: nat, m: Meaning, env: Env, p: Position, resumptions: nat)
    requires index < |body| && DistinctIds(body[index].e) && At(body[index].e, m, env, p)
    requires !IsLast(body[index].e, m, env, p)
    ensures var e := body[index].e;
            var x := Resumed(body, index, m, env, StampsAt(e, m, env, p), resumptions);
            if resumptions == 0 then x.Paused?
            else x == Resumed(body, index, m, env, StampsAt(e, m, env, Next(e, m, env, p)), resumptions - 1)
    ensures Rank(body[index].e, m, env, Next(body[index].e, m, env, p)) == Rank(body[index].e, m, env, p) + 1
  {
    hide Run, At, IsLast, Rank, Runs, Segment, Seen, StampsAt, Times, Direct, DistinctIds;
    RunFrom(body[index].e, m, env, p);
    NextCounts(body[index].e, m, env, p, Called(0));
  }

  lemma {:induction false} SuspensionsBound(body: seq<Stmt>, index: nat, m: Meaning, env: Env)
    requires index <= |body|
    ensures Suspensions(body, index, m, env) >= 0
    ensures index < |body| ==> Suspensions(body, index, m, env) >= Runs(body[index].e, m, env) - 1
    decreases |body| - index
  {
    if index < |body| {
      RankBelow(body[index].e, m, env, First(body[index].e, m, env));
      var r := Direct(body[index].e, m, env);
      if r.Ok? && !body[index].Return? {
        SuspensionsBound(body, index + 1, m, After(body[index], env, r.value));
      }
    }
  }

  /** A statement that completes hands over to the next one, with no stamp left behind. */
  lemma ResumedSame(body: seq<Stmt>, index: nat, m: Meaning, env: Env, p: Position, resumptions: nat)
    requires index < |body| && DistinctIds(body[index].e) && At(body[index].e, m, env, p)
    requires IsLast(body[index].e, m, env, p) && Direct(body[index].e, m, env).Ok? && !body[index].Return?
    ensures Resumed(body, index, m, env, StampsAt(body[index].e, m, env, p), resumptions)
         == Resumed(body, index + 1, m, After(body[index], env, Direct(body[index].e, m, env).value), map[],
                    resumptions)
  {
    RunFrom(body[index].e, m, env, p);
  }

  /** An async body, suspended and re-run as often as it takes, settles its promise as straight-line execution
      would, after exactly the number of suspensions the statements add up to. */
  lemma BodyRerunIsDirect(body: seq<Stmt>, m: Meaning, env: Env, resumptions: nat)
    requires forall s <- body :: DistinctIds(s.e)
    ensures Suspensions(body, 0, m, env) >= 0
    ensures var x := Resumed(body, 0, m, env, map[], resumptions);
            if resumptions < Suspensions(body, 0, m, env) then x.Paused?
            else x == Finished(DirectBody(body, 0, m, env))
  {
    if body != [] {
      CleanStart(body[0].e, m, env);
      FirstCounts(body[0].e, m, env, Called(0));
      ResumedFrom(body, 0, m, env, First(body[0].e, m, env), resumptions);
    }
  }

  // ---------- what a statement stores ----------

  /** return e is x = e; return x: in a re-run, resumed as often as one likes, and in a straight line, the two end
      alike, and a pause leaves the same. */
  lemma {:induction false} StoredIsReturned(body: seq<Stmt>, i: nat, m: Meaning, env: Env, stamps: Stamps,
                                            resumptions: nat)
    requires i + 1 < |body| && body[i].Assign? && body[i + 1] == Return(Var(body[i].name))
    ensures var short := body[i := Return(body[i].e)];
            && Exec(body, i, m, env, stamps) == Exec(short, i, m, env, stamps)
            && Resumed(body, i, m, env, stamps, resumptions) == Resumed(short, i, m, env, stamps, resumptions)
            && DirectBody(body, i, m, env) == DirectBody(short, i, m, env)
    decreases resumptions
  {
    var x := Exec(body, i, m, env, stamps);
    if x.Paused? && resumptions > 0 {
      StoredIsReturned(body, i, m, x.env, x.stamps[x.id := m.settle(x.id, x.operand)], resumptions - 1);
    }
  }

  /** Any other variable is read after the assignment, or after a bare expression, as it stood before. */
  lemma StoresNowhereElse(body: seq<Stmt>, i: nat, m: Meaning, env: Env, stamps: Stamps, y: string)
    requires i + 1 < |body| && !body[i].Return? && (body[i].Assign? ==> body[i].name != y)
    requires body[i + 1] == Return(Var(y))
    ensures var before := if y in env then Ok(env[y]) else Err("ReferenceError");
            && (Run(body[i].e, m, env, stamps).outcome.Done? ==> Exec(body, i, m, env, stamps) == Finished(before))
            && (Direct(body[i].e, m, env).Ok? ==> DirectBody(body, i, m, env) == before)
  {
    assert DirectBody(body, i + 1, m, env) == if y in env then Ok(env[y]) else Err("ReferenceError");
  }

  /** How the last statement comes out is how the body ends: as its exception, as what it returns, else undefined. */
  lemma LastStatement(body: seq<Stmt>, i: nat, m: Meaning, env: Env, stamps: Stamps)
    requires i + 1 == |body|
    ensures var r := Run(body[i].e, m, env, stamps);
            match r.outcome
            case Done(v) => Exec(body, i, m, env, stamps) == Finished(Ok(if body[i].Return? then v else Undefined))
            case Threw(e) => Exec(body, i, m, env, stamps) == Finished(Err(e))
            case Suspended(id, v) => Exec(body, i, m, env, stamps) == Paused(i, env, r.stamps, id, v)
    ensures DirectBody(body, i, m, env) ==
            if body[i].Return? || Direct(body[i].e, m, env).Err? then Direct(body[i].e, m, env) else Ok(Undefined)
  {
  }

  /** Functions get their argument, operators the left operand first, and an await its promise's answer. */
  lemma Applied(body: seq<Stmt>, i: nat, m: Meaning, env: Env, stamps: Stamps, x: string, y: string)
    requires i < |body| && body[i].Return? && x in env && y in env
    ensures body[i].e.Lit? ==> Returns(body, i, m, env, stamps, Ok(body[i].e.v))
    ensures body[i].e.Call? && body[i].e.arg == Var(x) ==>
              Returns(body, i, m, env, stamps, m.call(body[i].e.f, env[x]))
    ensures body[i].e.Binary? && body[i].e.left == Var(x) && body[i].e.right == Var(y) ==>
              var op := body[i].e.op;
              Returns(body, i, m, env, stamps, if m.stops(op, env[x]) then Ok(env[x]) else m.binary(op, env[x], env[y]))
    ensures body[i].e.Await? && body[i].e.operand == Var(x) && body[i].e.id !in stamps ==>
              var id := body[i].e.id;
              && Exec(body, i, m, env, stamps) == Paused(i, env, stamps, id, env[x])
              && Exec(body, i, m, env, stamps[id := m.settle(id, env[x])]) == Finished(m.settle(id, env[x]))
              && DirectBody(body, i, m, env) == m.settle(id, env[x])
  {
    var e := body[i].e;
    Named(x, m, env, stamps);
    Named(y, m, env, stamps);
    if e.Await? && e.id !in stamps {
      Named(x, m, env, stamps[e.id := m.settle(e.id, env[x])]);
    }
  }

  ghost predicate Returns(body: seq<Stmt>, i: nat, m: Meaning, env: Env, stamps: Stamps, r: Result<Value>)
    requires i < |body|
  {
    Exec(body, i, m, env, stamps) == Finished(r) && DirectBody(body, i, m, env) == r
  }

  lemma Named(x: string, m: Meaning, env: Env, stamps: Stamps)
    requires x in env
    ensures Run(Var(x), m, env, stamps).outcome == Done(env[x]) && Run(Var(x), m, env, stamps).stamps == stamps
    ensures Direct(Var(x), m, env) == Ok(env[x])
  {
  }

  // ---------- the frame that does it ----------

  /** CallFrame, as far as await uses it. */
  class CallFrame {
    const body: seq<Stmt>
    const m: Meaning
    var nextStatementIndex: nat
    var env: Env
    var awaitedResults: map<AwaitId, Value>
    var awaitedExceptions: map<AwaitId, string>

    constructor (body: seq<Stmt>, m: Meaning, env: Env)
      ensures Valid() && this.body == body && this.m == m
      ensures nextStatementIndex == 0 && this.env == env && Stamps() == map[]
    {
      this.body, this.m, this.env := body, m, env;
      nextStatementIndex, awaitedResults, awaitedExceptions := 0, map[], map[];
    }

    ghost predicate Valid()
      reads this
    {
      nextStatementIndex <= |body| && awaitedResults.Keys !! awaitedExceptions.Keys
    }

    ghost function Stamps(): Stamps
      reads this
    {
      map id | id in awaitedResults.Keys + awaitedExceptions.Keys ::
        if id in awaitedResults then Ok(awaitedResults[id]) else Err(awaitedExceptions[id])
    }

    /** What a settled promise does to the frame that awaits it. */
    method Stamp(id: AwaitId, r: Result<Value>)
      requires Valid() && id !in awaitedResults && id !in awaitedExceptions
      modifies this`awaitedResults, this`awaitedExceptions
      ensures Valid() && Stamps() == old(Stamps())[id := r]
    {
      if r.Ok? {
        awaitedResults := awaitedResults[id := r.value];
      } else {
        awaitedExceptions := awaitedExceptions[id := r.message];
      }
    }

    method EvaluateExpression(e: Expr) returns (o: Outcome)
      requires Valid()
      modifies this`awaitedResults, this`awaitedExceptions
      ensures Valid()
      ensures o == Run(e, m, env, old(Stamps())).outcome && Stamps() == Run(e, m, env, old(Stamps())).stamps
      decreases e
    {
      match e {
        case Lit(v) => o := Done(v);
        case Var(x) => o := if x in env then Done(env[x]) else Threw("ReferenceError");
        case Call(f, arg) =>
          o := EvaluateExpression(arg);
          if o.Done? { o := Raise(m.call(f, o.v)); }
        case Binary(op, left, right) =>
          var l := EvaluateExpression(left);
          if !l.Done? || m.stops(op, l.v) { return l; }
          var r := EvaluateExpression(right);
          o := if r.Done? then Raise(m.binary(op, l.v, r.v)) else r;
        case Await(id, operand) =>
          if id in awaitedResults {
            o := Done(awaitedResults[id]);
            awaitedResults := awaitedResults - {id};
          } else if id in awaitedExceptions {
            o := Threw(awaitedExceptions[id]);
            awaitedExceptions := awaitedExceptions - {id};
          } else {
            o := EvaluateExpression(operand);
            if o.Done? { o := Suspended(id, o.v); }
          }
      }
    }

    /** Runs statements from where the frame left off; a suspension leaves the index where it is. */
    method ExecuteUntilAwaitOrReturn() returns (o: Outcome)
      requires Valid()
      modifies this`nextStatementIndex, this`env, this`awaitedResults, this`awaitedExceptions
      ensures Valid()
      ensures var x := Exec(body, old(nextStatementIndex), m, old(env), old(Stamps()));
              if x.Paused?
              then o == Suspended(x.id, x.operand) && nextStatementIndex == x.index && env == x.env
                   && Stamps() == x.stamps
              else o == Raise(x.result)
    {
      while nextStatementIndex < |body|
        invariant Valid()
        invariant Exec(body, nextStatementIndex, m, env, Stamps())
               == Exec(body, old(nextStatementIndex), m, old(env), old(Stamps()))
        decreases |body| - nextStatementIndex
      {
        var s := body[nextStatementIndex];
        o := EvaluateExpression(s.e);
        if !o.Done? || s.Return? { return; }
        if s.Assign? {
          env := env[s.name := o.v];
        }
        nextStatementIndex := nextStatementIndex + 1;
      }
      o := Done(Undefined);
    }
  }
}
