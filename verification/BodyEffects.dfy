/** Whole async bodies of programs with effects: how often they are suspended. */
module BodyEffects {
  import opened Wrappers
  import opened AwaitRerun
  import opened AwaitCost
  import opened AwaitEffects
  import opened AwaitDirect
  import opened AsyncBody

  datatype ExecutionIn<S> =
    | PausedIn(index: nat, s: S, stamps: Stamps, id: AwaitId, operand: Value)
    | FinishedIn(result: Result<Value>, s: S)

  function Assigned<S>(x: Stmt, p: Program<S>, s: S, v: Value): S {
    if x.Assign? then p.assign(s, x.name, v) else s
  }

  /** As Exec, threading the program's state. */
  function ExecIn<S>(body: seq<Stmt>, index: nat, p: Program<S>, s: S, stamps: Stamps): (x: ExecutionIn<S>)
    requires index <= |body|
    ensures x.PausedIn? ==> x.index <= |body|
    decreases |body| - index
  {
    if index == |body| then FinishedIn(Ok(Undefined), s)
    else
      var x := Eval(body[index].e, p, s, stamps);
      match x.r.outcome
      case Suspended(id, operand) => PausedIn(index, x.s, x.r.stamps, id, operand)
      case Threw(e) => FinishedIn(Err(e), x.s)
      case Done(v) =>
        if body[index].Return? then FinishedIn(Ok(v), x.s)
        else ExecIn(body, index + 1, p, Assigned(body[index], p, x.s, v), x.r.stamps)
  }

  function ResumedIn<S>(body: seq<Stmt>, index: nat, p: Program<S>, s: S, stamps: Stamps, resumptions: nat)
    : ExecutionIn<S>
    requires index <= |body|
    decreases resumptions
  {
    var x := ExecIn(body, index, p, s, stamps);
    if x.PausedIn? && resumptions > 0 then
      var (s1, settled) := p.settle(x.s, x.id, x.operand);
      ResumedIn(body, x.index, p, s1, x.stamps[x.id := settled], resumptions - 1)
    else x
  }

  /** An assignment binds its name and no other. */
  ghost predicate Binds<S(!new)>(p: Program<S>, names: S -> set<string>) {
    forall s, x, v :: names(p.assign(s, x, v)) == names(s) + {x}
  }

  ghost predicate SameExecution<S>(x: ExecutionIn<S>, y: Execution, names: S -> set<string>) {
    match x
    case PausedIn(index, s, stamps, id, _) =>
      y.Paused? && y.index == index && y.id == id && SameStamps(stamps, y.stamps) && y.env.Keys == names(s)
    case FinishedIn(result, _) => y.Finished? && (result.Ok? <==> y.result.Ok?)
  }

  lemma {:induction false} ExecsLikeShape<S(!new)>(body: seq<Stmt>, index: nat, p: Program<S>, t: Pattern,
                                                   names: S -> set<string>, s: S, stamps: Stamps, env: Env,
                                                   plain: Stamps)
    requires index <= |body| && Steady(p, t, names) && Binds(p, names)
    requires SameStamps(stamps, plain) && env.Keys == names(s)
    ensures SameExecution(ExecIn(body, index, p, s, stamps), Exec(body, index, Shape(t), env, plain), names)
    decreases |body| - index
  {
    if index < |body| {
      var st := body[index];
      RunsLikeShape(st.e, p, t, names, s, stamps, env, plain);
      var x, y := Eval(st.e, p, s, stamps), Run(st.e, Shape(t), env, plain);
      if x.r.outcome.Done? && !st.Return? {
        var s1, env1 := Assigned(st, p, x.s, x.r.outcome.v), After(st, env, y.outcome.v);
        assert env1.Keys == names(s1);
        ExecsLikeShape(body, index + 1, p, t, names, s1, x.r.stamps, env1, y.stamps);
      }
    }
  }

  lemma {:induction false} ResumesLikeShape<S(!new)>(body: seq<Stmt>, index: nat, p: Program<S>, t: Pattern,
                                                     names: S -> set<string>, s: S, stamps: Stamps, env: Env,
                                                     plain: Stamps, resumptions: nat)
    requires index <= |body| && Steady(p, t, names) && Binds(p, names)
    requires SameStamps(stamps, plain) && env.Keys == names(s)
    ensures SameExecution(ResumedIn(body, index, p, s, stamps, resumptions),
                          Resumed(body, index, Shape(t), env, plain, resumptions), names)
    decreases resumptions
  {
    ExecsLikeShape(body, index, p, t, names, s, stamps, env, plain);
    var x, y := ExecIn(body, index, p, s, stamps), Exec(body, index, Shape(t), env, plain);
    if x.PausedIn? && resumptions > 0 {
      var (s1, settled) := p.settle(x.s, x.id, x.operand);
      ResumesLikeShape(body, x.index, p, t, names, s1, x.stamps[x.id := settled], y.env,
        y.stamps[y.id := Shape(t).settle(y.id, y.operand)], resumptions - 1);
    }
  }

  /** Whatever its calls do and its promises bring, an async body is suspended exactly as often as its statements add
      up to, and then completes or throws as its shape does. */
  lemma BodyCounts<S(!new)>(body: seq<Stmt>, p: Program<S>, t: Pattern, names: S -> set<string>, s: S, env: Env,
                            resumptions: nat)
    requires (forall x <- body :: DistinctIds(x.e)) && Steady(p, t, names) && Binds(p, names) && env.Keys == names(s)
    ensures var x, n := ResumedIn(body, 0, p, s, map[], resumptions), Suspensions(body, 0, Shape(t), env);
            if resumptions < n then x.PausedIn?
            else x.FinishedIn? && (x.result.Ok? <==> DirectBody(body, 0, Shape(t), env).Ok?)
  {
    BodyRerunIsDirect(body, Shape(t), env, resumptions);
    ResumesLikeShape(body, 0, p, t, names, s, map[], env, map[], resumptions);
  }

  // ---------- bodies that compute what straight-line execution does ----------

  /** Straight-line execution, an await being the wait for its promise, threading the state. */
  function DirectBodyIn<S>(body: seq<Stmt>, index: nat, p: Program<S>, s: S): Ended<S>
    requires index <= |body|
    decreases |body| - index, 1
  {
    if index == |body| then (s, Ok(Undefined)) else Rest(body, index, p, DirectIn(body[index].e, p, s))
  }

  /** Execution from where statement index has come out. */
  function Rest<S>(body: seq<Stmt>, index: nat, p: Program<S>, d: Ended<S>): Ended<S>
    requires index < |body|
    decreases |body| - index, 0
  {
    if d.1.Err? || body[index].Return? then d
    else DirectBodyIn(body, index + 1, p, Assigned(body[index], p, d.0, d.1.value))
  }

  // ---------- what a statement stores ----------

  /** A variable holds what was last assigned to it. */
  ghost predicate ReadsBack<S(!new)>(p: Program<S>) {
    && (forall s, x, v :: p.read(p.assign(s, x, v), x) == Ok(v))
    && (forall s, x, y, v :: x != y ==> p.read(p.assign(s, x, v), y) == p.read(s, y))
  }

  /** The state after x = e; return x, if it came out as the state and result given after return e. */
  function WithStored<S>(p: Program<S>, x: string, s: S, result: Result<Value>): S {
    if result.Ok? then p.assign(s, x, result.value) else s
  }

  /** return e is x = e; return x, in any program: they end with the same result, and the states differ by what was
      assigned. */
  lemma {:induction false} StoredIsReturnedIn<S(!new)>(body: seq<Stmt>, i: nat, p: Program<S>, s: S, stamps: Stamps,
                                                       resumptions: nat)
    requires ReadsBack(p) && i + 1 < |body| && body[i].Assign? && body[i + 1] == Return(Var(body[i].name))
    ensures var short := body[i := Return(body[i].e)];
            var a, b := ResumedIn(body, i, p, s, stamps, resumptions), ResumedIn(short, i, p, s, stamps, resumptions);
            && (a.PausedIn? || b.PausedIn? ==> a == b)
            && (b.FinishedIn? ==> a == FinishedIn(b.result, WithStored(p, body[i].name, b.s, b.result)))
    ensures var d := DirectBodyIn(body[i := Return(body[i].e)], i, p, s);
            DirectBodyIn(body, i, p, s) == (WithStored(p, body[i].name, d.0, d.1), d.1)
    decreases resumptions
  {
    var x := ExecIn(body, i, p, s, stamps);
    var short := body[i := Return(body[i].e)];
    var o, d := Eval(body[i].e, p, s, stamps), DirectIn(body[i].e, p, s);
    if d.1.Ok? {
      ReadAtEnd(body, i + 1, p, p.assign(d.0, body[i].name, d.1.value), stamps);
    }
    if o.r.outcome.Done? {
      ReadAtEnd(body, i + 1, p, p.assign(o.s, body[i].name, o.r.outcome.v), o.r.stamps);
    }
    if x.PausedIn? && resumptions > 0 {
      var (s1, settled) := p.settle(x.s, x.id, x.operand);
      StoredIsReturnedIn(body, i, p, s1, x.stamps[x.id := settled], resumptions - 1);
    }
  }

  /** Any other variable is read after the assignment, or after a bare expression, as it stood before. */
  lemma StoresNowhereElseIn<S(!new)>(body: seq<Stmt>, i: nat, p: Program<S>, s: S, stamps: Stamps, y: string)
    requires ReadsBack(p) && i + 1 < |body| && !body[i].Return? && (body[i].Assign? ==> body[i].name != y)
    requires body[i + 1] == Return(Var(y))
    ensures var x := Eval(body[i].e, p, s, stamps);
            x.r.outcome.Done? ==>
              ExecIn(body, i, p, s, stamps).FinishedIn? && ExecIn(body, i, p, s, stamps).result == p.read(x.s, y)
    ensures var d := DirectIn(body[i].e, p, s); d.1.Ok? ==> DirectBodyIn(body, i, p, s).1 == p.read(d.0, y)
  {
    var x, d := Eval(body[i].e, p, s, stamps), DirectIn(body[i].e, p, s);
    if x.r.outcome.Done? {
      ReadAtEnd(body, i + 1, p, Assigned(body[i], p, x.s, x.r.outcome.v), x.r.stamps);
    }
    if d.1.Ok? {
      ReadAtEnd(body, i + 1, p, Assigned(body[i], p, d.0, d.1.value), stamps);
    }
  }

  lemma ReadAtEnd<S>(body: seq<Stmt>, i: nat, p: Program<S>, s: S, stamps: Stamps)
    requires i < |body| && body[i].Return? && body[i].e.Var?
    ensures ExecIn(body, i, p, s, stamps) == FinishedIn(p.read(s, body[i].e.name), s)
    ensures DirectBodyIn(body, i, p, s) == (s, p.read(s, body[i].e.name))
  {
  }

  /** How the last statement comes out is how the body ends: as its exception, as what it returns, else undefined. */
  lemma LastStatementIn<S>(body: seq<Stmt>, i: nat, p: Program<S>, s: S, stamps: Stamps)
    requires i + 1 == |body|
    ensures var x := Eval(body[i].e, p, s, stamps);
            match x.r.outcome
            case Done(v) => ExecIn(body, i, p, s, stamps) == FinishedIn(Ok(if body[i].Return? then v else Undefined),
                              Assigned(body[i], p, x.s, v))
            case Threw(e) => ExecIn(body, i, p, s, stamps) == FinishedIn(Err(e), x.s)
            case Suspended(id, v) => ExecIn(body, i, p, s, stamps) == PausedIn(i, x.s, x.r.stamps, id, v)
    ensures var d := DirectIn(body[i].e, p, s);
            DirectBodyIn(body, i, p, s) == if body[i].Return? || d.1.Err? then d
                                           else (Assigned(body[i], p, d.0, d.1.value), Ok(Undefined))
  {
    var d := DirectIn(body[i].e, p, s);
    assert DirectBodyIn(body, i, p, s) == Rest(body, i, p, d);
    if d.1.Ok? {
      var after := Assigned(body[i], p, d.0, d.1.value);
      assert DirectBodyIn(body, i + 1, p, after) == (after, Ok(Undefined));
    }
  }

  /** Functions get their argument and the state, operators the left operand first, and an await its promise's
      answer. */
  lemma AppliedIn<S>(body: seq<Stmt>, i: nat, p: Program<S>, s: S, stamps: Stamps, x: string, y: string)
    requires i < |body| && body[i].Return? && p.read(s, x).Ok? && p.read(s, y).Ok?
    ensures var a, b := p.read(s, x).value, p.read(s, y).value;
            && (body[i].e.Lit? ==> ReturnsIn(body, i, p, s, stamps, (s, Ok(body[i].e.v))))
            && (body[i].e.Call? && body[i].e.arg == Var(x) ==>
                  ReturnsIn(body, i, p, s, stamps, p.call(s, body[i].e.f, a)))
            && (body[i].e.Binary? && body[i].e.left == Var(x) && body[i].e.right == Var(y) ==>
                  var op := body[i].e.op;
                  ReturnsIn(body, i, p, s, stamps, (s, if p.stops(s, op, a) then Ok(a) else p.binary(s, op, a, b))))
            && (body[i].e.Await? && body[i].e.operand == Var(x) && body[i].e.id !in stamps ==>
                  var id := body[i].e.id;
                  var settled := p.settle(s, id, a);
                  && ExecIn(body, i, p, s, stamps) == PausedIn(i, s, stamps, id, a)
                  && ExecIn(body, i, p, settled.0, stamps[id := settled.1]) == FinishedIn(settled.1, settled.0)
                  && DirectBodyIn(body, i, p, s) == settled)
  {
    var e := body[i].e;
    NamedIn(x, p, s, stamps);
    NamedIn(y, p, s, stamps);
    assert DirectBodyIn(body, i, p, s) == DirectIn(e, p, s);
    if e.Binary? && e.left == Var(x) {
      assert DirectIn(e, p, s) == LeftIn(e.op, e.right, p, (s, p.read(s, x)));
    }
    if e.Await? && e.id !in stamps {
      var settled := p.settle(s, e.id, p.read(s, x).value);
      assert Eval(e, p, settled.0, stamps[e.id := settled.1]).s == settled.0;
    }
  }

  ghost predicate ReturnsIn<S>(body: seq<Stmt>, i: nat, p: Program<S>, s: S, stamps: Stamps, d: Ended<S>)
    requires i < |body|
  {
    ExecIn(body, i, p, s, stamps) == FinishedIn(d.1, d.0) && DirectBodyIn(body, i, p, s) == d
  }

  lemma NamedIn<S>(x: string, p: Program<S>, s: S, stamps: Stamps)
    ensures Eval(Var(x), p, s, stamps).r.outcome == Raise(p.read(s, x)) && Eval(Var(x), p, s, stamps).s == s
    ensures Eval(Var(x), p, s, stamps).r.stamps == stamps && DirectIn(Var(x), p, s) == (s, p.read(s, x))
  {
  }

  function BodyWaits(body: seq<Stmt>, index: nat): nat
    requires index <= |body|
    decreases |body| - index
  {
    if index == |body| then 0 else Waits(body[index].e) + BodyWaits(body, index + 1)
  }

  /** How many more awaits may come when execution is paused at the await id of statement index. */
  function Ahead(body: seq<Stmt>, index: nat, id: AwaitId): nat
    requires index < |body|
  {
    Around(body[index].e, id) + BodyWaits(body, index + 1)
  }

  ghost predicate GoodBody(body: seq<Stmt>) {
    forall i | 0 <= i < |body| :: Resumable(body[i].e) && DistinctIds(body[i].e)
  }

  /** Execution has ended as d, or stands at an await after which it will. */
  ghost predicate BodyComes<S(!new)>(body: seq<Stmt>, p: Program<S>, x: ExecutionIn<S>, d: Ended<S>) {
    match x
    case FinishedIn(result, s) => d == (s, result)
    case PausedIn(i, s, stamps, id, v) =>
      && i < |body| && stamps == map[] && id in Ids(body[i].e) && OnWay(body[i].e, p, id)
      && var t := p.settle(s, id, v); Rest(body, i, p, From(body[i].e, p, t.0, id, t.1)) == d
  }

  lemma {:induction false} ExecComes<S(!new)>(body: seq<Stmt>, index: nat, p: Program<S>, s: S, stamps: Stamps,
                                              d: Ended<S>)
    requires GoodBody(body) && PureOperators(p) && index < |body|
    requires ComesTo(body[index].e, p, Eval(body[index].e, p, s, stamps), d)
    ensures var x, o := ExecIn(body, index, p, s, stamps), Eval(body[index].e, p, s, stamps).r.outcome;
            && BodyComes(body, p, x, Rest(body, index, p, d))
            && (x.PausedIn? ==> if o.Suspended? then x.index == index && x.id == o.id
                                else x.index < |body| && Ahead(body, x.index, x.id) < BodyWaits(body, index + 1))
    decreases |body| - index
  {
    var x := Eval(body[index].e, p, s, stamps);
    hide From, OnWay, DirectIn, Eval, PureOperators, Resumable, DistinctIds, Ids, Around, Waits;
    if x.r.outcome.Done? && !body[index].Return? && index + 1 < |body| {
      var s1 := Assigned(body[index], p, x.s, x.r.outcome.v);
      FreshRun(body[index + 1].e, p, s1);
      ExecComes(body, index + 1, p, s1, map[], DirectIn(body[index + 1].e, p, s1));
      var o := Eval(body[index + 1].e, p, s1, map[]).r.outcome;
      if o.Suspended? {
        AroundBelow(body[index + 1].e, o.id);
      }
    }
  }

  lemma {:induction false} ResumedComes<S(!new)>(body: seq<Stmt>, index: nat, p: Program<S>, s: S, id: AwaitId,
                                                 r: Result<Value>, n: nat)
    requires GoodBody(body) && PureOperators(p) && index < |body| && id in Ids(body[index].e)
    requires OnWay(body[index].e, p, id) && n >= Ahead(body, index, id)
    ensures var d := Rest(body, index, p, From(body[index].e, p, s, id, r));
            ResumedIn(body, index, p, s, map[id := r], n) == FinishedIn(d.1, d.0)
    decreases n
  {
    StampedRun(body[index].e, p, s, id, r);
    ExecComes(body, index, p, s, map[id := r], From(body[index].e, p, s, id, r));
    hide From, OnWay, DirectIn, Eval, PureOperators, Resumable, DistinctIds, Ids, Around, Waits, ExecIn, Rest,
      ComesTo;
    var x := ExecIn(body, index, p, s, map[id := r]);
    if x.PausedIn? {
      var t := p.settle(x.s, x.id, x.operand);
      assert x.stamps[x.id := t.1] == map[x.id := t.1];
      ResumedComes(body, x.index, p, t.0, x.id, t.1, n - 1);
    }
  }

  /** A body of resumable statements ends as straight-line execution does, whatever its calls do and its promises bring,
      and leaves the same state. */
  lemma BodyIsDirectIn<S(!new)>(body: seq<Stmt>, p: Program<S>, s: S, resumptions: nat)
    requires GoodBody(body) && PureOperators(p) && resumptions >= BodyWaits(body, 0)
    ensures var d := DirectBodyIn(body, 0, p, s); ResumedIn(body, 0, p, s, map[], resumptions) == FinishedIn(d.1, d.0)
  {
    if body != [] {
      FreshRun(body[0].e, p, s);
      ExecComes(body, 0, p, s, map[], DirectIn(body[0].e, p, s));
      var o := Eval(body[0].e, p, s, map[]).r.outcome;
      if o.Suspended? {
        SuspendsInside(body[0].e, p, s, map[], DirectIn(body[0].e, p, s));
        AroundBelow(body[0].e, o.id);
      }
      hide From, OnWay, DirectIn, Eval, PureOperators, Resumable, DistinctIds, Ids, Around, Waits, ExecIn, Rest,
        ComesTo;
      var x := ExecIn(body, 0, p, s, map[]);
      if x.PausedIn? {
        var t := p.settle(x.s, x.id, x.operand);
        assert x.stamps[x.id := t.1] == map[x.id := t.1];
        ResumedComes(body, x.index, p, t.0, x.id, t.1, resumptions - 1);
      }
    }
  }
}
