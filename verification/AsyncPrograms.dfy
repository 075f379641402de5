/** Async functions from call to settlement: in any run of the step machine in which the frame of a call re-runs its
    body from await to await, the call's promise ends as straight-line execution of the body does. */
module AsyncPrograms {
  import opened Wrappers
  import opened AwaitRerun
  import opened AwaitCost
  import opened AwaitEffects
  import opened AwaitDirect
  import opened AsyncBody
  import opened BodyEffects
  import M = AsyncMachine
  import D = AsyncDriven

  /** How the values of a body appear in the machine: what an await hands over, what it gets back, what a body ends
      in. */
  datatype Bridge = Bridge(given: (AwaitId, Value) -> M.Value, into: M.Value -> Value, out: Value -> M.Value)

  /** The entry a stamp leaves under the id of its await. */
  function Entry(b: Bridge, s: M.Stamp): Result<Value> {
    if s.threw then Err(M.ErrorText(s.v)) else Ok(b.into(s.v))
  }

  /** How a settled promise x shows that a body ended in r. */
  predicate SettledAs(x: M.Promise, b: Bridge, r: Result<Value>) {
    match r
    case Ok(v) => x.status == M.Fulfilled && x.result == b.out(v)
    case Err(e) => x.status == M.Rejected && x.result == M.Text(e)
  }

  function EndsIn<X>(b: Bridge, r: Result<Value>): (t: D.Turn<X>)
    ensures t.Ends?
  {
    match r
    case Ok(v) => D.Ends(true, b.out(v))
    case Err(e) => D.Ends(false, M.Text(e))
  }

  ghost predicate AllTrue(w: M.World, trace: D.Trace) {
    forall i | 0 <= i < |trace| :: D.Outcome(w, trace[i].0, trace[i].1)
  }

  // ---------- bodies whose calls and promises answer the same every time ----------

  /** Where a body stands: the statement, the variables, the stamps, and the await last suspended at. */
  datatype Place = Place(index: nat, env: Env, stamps: Stamps, id: AwaitId)

  function TurnOf(body: seq<Stmt>, m: Meaning, b: Bridge, x: Place): D.Turn<Place> {
    if x.index > |body| then EndsIn(b, Ok(Undefined))
    else
      match Exec(body, x.index, m, x.env, x.stamps)
      case Paused(i, env, stamps, id, v) => D.Pauses(Place(i, env, stamps, id), b.given(id, v))
      case Finished(r) => EndsIn(b, r)
  }

  function BodyCode(body: seq<Stmt>, m: Meaning, b: Bridge): D.Code<Place> {
    D.Code(x => TurnOf(body, m, b, x), (x: Place, s) => x.(stamps := x.stamps[x.id := Entry(b, s)]))
  }

  /** What the awaited promises have come to is what m says of them. */
  ghost predicate Keeps(w: M.World, m: Meaning, b: Bridge) {
    forall id, v, s | D.Outcome(w, b.given(id, v), s) :: Entry(b, s) == m.settle(id, v)
  }

  lemma {:induction false} LedIsResumed(w: M.World, body: seq<Stmt>, m: Meaning, b: Bridge, env: Env, trace: D.Trace,
                                        n: nat)
    requires Keeps(w, m, b) && AllTrue(w, trace)
    requires D.LedTo(BodyCode(body, m, b), Place(0, env, map[], 0), trace).Some?
    ensures var x := D.LedTo(BodyCode(body, m, b), Place(0, env, map[], 0), trace).value;
            x.index <= |body|
            && Resumed(body, 0, m, env, map[], |trace| + n) == Resumed(body, x.index, m, x.env, x.stamps, n)
    decreases |trace|
  {
    if trace != [] {
      var k, code := |trace| - 1, BodyCode(body, m, b);
      assert AllTrue(w, trace[..k]) by { assert forall i | 0 <= i < k :: trace[..k][i] == trace[i]; }
      LedIsResumed(w, body, m, b, env, trace[..k], n + 1);
      var y := D.LedTo(code, Place(0, env, map[], 0), trace[..k]).value;
      ExecIndex(body, y.index, m, y.env, y.stamps);
      var t := Exec(body, y.index, m, y.env, y.stamps);
      assert D.Outcome(w, trace[k].0, trace[k].1);
      assert Entry(b, trace[k].1) == m.settle(t.id, t.operand);
    }
  }

  lemma LedEndsDirectly(w: M.World, body: seq<Stmt>, m: Meaning, b: Bridge, env: Env, trace: D.Trace)
    requires Keeps(w, m, b) && AllTrue(w, trace) && forall s <- body :: DistinctIds(s.e)
    requires var led := D.LedTo(BodyCode(body, m, b), Place(0, env, map[], 0), trace);
             led.Some? && TurnOf(body, m, b, led.value).Ends?
    ensures TurnOf(body, m, b, D.LedTo(BodyCode(body, m, b), Place(0, env, map[], 0), trace).value)
         == EndsIn(b, DirectBody(body, 0, m, env))
  {
    var x := D.LedTo(BodyCode(body, m, b), Place(0, env, map[], 0), trace).value;
    LedIsResumed(w, body, m, b, env, trace, 0);
    BodyRerunIsDirect(body, m, env, |trace|);
    assert Resumed(body, 0, m, env, map[], |trace| + 0) == Exec(body, x.index, m, x.env, x.stamps);
    hide DirectBody, Exec, Keeps;
  }

  /** In every run from a call in which its frame runs the body, whatever else happens and however often the body is
      suspended and re-run: if the promises it awaits come to what m says, the call's promise ends as straight-line
      execution does. */
  lemma CallIsDirect(w: M.World, actions: seq<M.Action>, w': M.World, body: seq<Stmt>, m: Meaning, b: Bridge, env: Env)
    requires M.Reachable(w) && M.Enabled(w, M.CallAsync) && forall s <- body :: DistinctIds(s.e)
    requires D.RunsCode(M.Apply(w, M.CallAsync), actions, w', |w.frames|, BodyCode(body, m, b),
                        D.Ready(Place(0, env, map[], 0)))
    requires Keeps(w', m, b)
    ensures |w.promises| < |w'.promises|
    ensures w'.promises[|w.promises|].status != M.Pending ==>
              SettledAs(w'.promises[|w.promises|], b, DirectBody(body, 0, m, env))
  {
    var code, x0 := BodyCode(body, m, b), Place(0, env, map[], 0);
    D.CallSettlesAsItsCode(w, actions, w', code, x0);
    var p := w'.promises[|w.promises|];
    hide M.Apply, M.Enabled, M.Reachable, D.RunsCode, Keeps;
    if p.status != M.Pending {
      var trace: D.Trace :|
        && (forall i | 0 <= i < |trace| :: D.Outcome(w', trace[i].0, trace[i].1))
        && D.LedTo(code, x0, trace).Some?
        && code.run(D.LedTo(code, x0, trace).value) == D.Ends(p.status == M.Fulfilled, p.result);
      LedEndsDirectly(w', body, m, b, env, trace);
    }
  }

  // ---------- bodies with effects ----------

  /** A state the program carries, and how many awaits have been answered. */
  datatype Counted<S> = Counted(s: S, count: nat)

  /** The program among all the others: the k-th wait is answered as the trace says, and what runs meanwhile does to the
      state what drift says. */
  function Fed<S>(p: Program<S>, drift: (nat, S) -> S, b: Bridge, trace: D.Trace): Program<Counted<S>> {
    Program((x: Counted<S>, name) => p.read(x.s, name),
            (x: Counted<S>, f, v) => var c := p.call(x.s, f, v); (x.(s := c.0), c.1),
            (x: Counted<S>, op, l, r) => p.binary(x.s, op, l, r),
            (x: Counted<S>, op, v) => p.stops(x.s, op, v),
            (x: Counted<S>, id, v) => (Waited(x, drift), AnswerAt(b, trace, x.count, id, v)),
            (x: Counted<S>, name, v) => x.(s := p.assign(x.s, name, v)))
  }

  function Waited<S>(x: Counted<S>, drift: (nat, S) -> S): Counted<S> {
    Counted(drift(x.count, x.s), x.count + 1)
  }

  function AnswerAt(b: Bridge, trace: D.Trace, k: nat, id: AwaitId, v: Value): Result<Value> {
    if k < |trace| && b.given(id, v) == trace[k].0 then Entry(b, trace[k].1) else Err("")
  }

  datatype Spot<S> = Spot(index: nat, s: Counted<S>, stamps: Stamps, id: AwaitId)

  function TurnIn<S>(body: seq<Stmt>, p: Program<Counted<S>>, b: Bridge, x: Spot<S>): D.Turn<Spot<S>> {
    if x.index > |body| then EndsIn(b, Ok(Undefined))
    else
      match ExecIn(body, x.index, p, x.s, x.stamps)
      case PausedIn(i, s, stamps, id, v) => D.Pauses(Spot(i, s, stamps, id), b.given(id, v))
      case FinishedIn(r, _) => EndsIn(b, r)
  }

  function EffectCode<S>(body: seq<Stmt>, p: Program<S>, drift: (nat, S) -> S, b: Bridge): D.Code<Spot<S>> {
    D.Code(x => TurnIn(body, Fed(p, drift, b, []), b, x),
           (x: Spot<S>, s) => x.(stamps := x.stamps[x.id := Entry(b, s)], s := Waited(x.s, drift)))
  }

  /** A single run does not wait, so it does not matter how waits are answered. */
  lemma {:induction false} EvalIgnoresAnswers<S>(e: Expr, p: Program<S>, drift: (nat, S) -> S, b: Bridge,
                                                 trace: D.Trace,
                                                 s: Counted<S>, stamps: Stamps)
    ensures Eval(e, Fed(p, drift, b, trace), s, stamps) == Eval(e, Fed(p, drift, b, []), s, stamps)
    ensures Eval(e, Fed(p, drift, b, trace), s, stamps).s.count == s.count
  {
    match e
    case Lit(_) =>
    case Var(_) =>
    case Call(_, arg) => EvalIgnoresAnswers(arg, p, drift, b, trace, s, stamps);
    case Await(_, operand) => EvalIgnoresAnswers(operand, p, drift, b, trace, s, stamps);
    case Binary(_, left, right) =>
      EvalIgnoresAnswers(left, p, drift, b, trace, s, stamps);
      var l := Eval(left, Fed(p, drift, b, []), s, stamps);
      EvalIgnoresAnswers(right, p, drift, b, trace, l.s, l.r.stamps);
  }

  lemma {:induction false} ExecIgnoresAnswers<S>(body: seq<Stmt>, index: nat, p: Program<S>, drift: (nat, S) -> S,
                                                 b: Bridge, trace: D.Trace, s: Counted<S>, stamps: Stamps)
    requires index <= |body|
    ensures ExecIn(body, index, Fed(p, drift, b, trace), s, stamps)
         == ExecIn(body, index, Fed(p, drift, b, []), s, stamps)
    ensures ExecIn(body, index, Fed(p, drift, b, trace), s, stamps).s.count == s.count
    decreases |body| - index
  {
    if index < |body| {
      EvalIgnoresAnswers(body[index].e, p, drift, b, trace, s, stamps);
      hide Eval;
      var x := Eval(body[index].e, Fed(p, drift, b, []), s, stamps);
      if x.r.outcome.Done? && !body[index].Return? {
        ExecIgnoresAnswers(body, index + 1, p, drift, b, trace,
                           Assigned(body[index], Fed(p, drift, b, []), x.s, x.r.outcome.v), x.r.stamps);
      }
    }
  }

  lemma {:induction false} LedIsResumedIn<S>(body: seq<Stmt>, p: Program<S>, drift: (nat, S) -> S, b: Bridge, s0: S,
                                             all: D.Trace, k: nat, n: nat)
    requires k <= |all|
    requires D.LedTo(EffectCode(body, p, drift, b), Spot(0, Counted(s0, 0), map[], 0), all[..k]).Some?
    ensures var x := D.LedTo(EffectCode(body, p, drift, b), Spot(0, Counted(s0, 0), map[], 0), all[..k]).value;
            var q := Fed(p, drift, b, all);
            x.index <= |body| && x.s.count == k
            && ResumedIn(body, 0, q, Counted(s0, 0), map[], k + n) == ResumedIn(body, x.index, q, x.s, x.stamps, n)
    decreases k
  {
    if k > 0 {
      var code, q := EffectCode(body, p, drift, b), Fed(p, drift, b, all);
      assert all[..k][..k - 1] == all[..k - 1] && all[..k][k - 1] == all[k - 1];
      LedIsResumedIn(body, p, drift, b, s0, all, k - 1, n + 1);
      var y := D.LedTo(code, Spot(0, Counted(s0, 0), map[], 0), all[..k - 1]).value;
      ExecIgnoresAnswers(body, y.index, p, drift, b, all, y.s, y.stamps);
      var t := ExecIn(body, y.index, q, y.s, y.stamps);
      assert t.PausedIn? && b.given(t.id, t.operand) == all[k - 1].0;
      hide ExecIn;
    }
  }

  /** For a body in which no two awaits of a statement stand side by side and nothing but constants stands to the left
      of one, no purity is needed: the call's promise ends as straight-line execution does in which the k-th await
      gives the outcome of the k-th promise awaited, whatever the calls do, and whatever is done to the state
      meanwhile. */
  lemma CallIsDirectIn<S(!new)>(w: M.World, actions: seq<M.Action>, w': M.World, body: seq<Stmt>, p: Program<S>,
                                drift: (nat, S) -> S, b: Bridge, s0: S)
    requires M.Reachable(w) && M.Enabled(w, M.CallAsync) && GoodBody(body) && PureOperators(p)
    requires D.RunsCode(M.Apply(w, M.CallAsync), actions, w', |w.frames|, EffectCode(body, p, drift, b),
                        D.Ready(Spot(0, Counted(s0, 0), map[], 0)))
    ensures |w.promises| < |w'.promises|
    ensures w'.promises[|w.promises|].status != M.Pending ==>
              exists trace: D.Trace ::
                && AllTrue(w', trace)
                && SettledAs(w'.promises[|w.promises|], b,
                             DirectBodyIn(body, 0, Fed(p, drift, b, trace), Counted(s0, 0)).1)
  {
    var code, x0 := EffectCode(body, p, drift, b), Spot(0, Counted(s0, 0), map[], 0);
    D.CallSettlesAsItsCode(w, actions, w', code, x0);
    var promise := w'.promises[|w.promises|];
    hide M.Apply, M.Enabled, M.Reachable, D.RunsCode, PureOperators;
    if promise.status != M.Pending {
      var trace: D.Trace :|
        && (forall i | 0 <= i < |trace| :: D.Outcome(w', trace[i].0, trace[i].1))
        && D.LedTo(code, x0, trace).Some?
        && code.run(D.LedTo(code, x0, trace).value) == D.Ends(promise.status == M.Fulfilled, promise.result);
      LedEndsDirectlyIn(body, p, drift, b, s0, trace);
      hide DirectBodyIn, GoodBody, Fed, EffectCode, TurnIn;
      assert AllTrue(w', trace)
          && SettledAs(promise, b, DirectBodyIn(body, 0, Fed(p, drift, b, trace), Counted(s0, 0)).1);
    }
  }

  lemma LedEndsDirectlyIn<S(!new)>(body: seq<Stmt>, p: Program<S>, drift: (nat, S) -> S, b: Bridge, s0: S,
                                   trace: D.Trace)
    requires GoodBody(body) && PureOperators(p)
    requires var code := EffectCode(body, p, drift, b);
             var led := D.LedTo(code, Spot(0, Counted(s0, 0), map[], 0), trace);
             led.Some? && code.run(led.value).Ends?
    ensures var code := EffectCode(body, p, drift, b);
            code.run(D.LedTo(code, Spot(0, Counted(s0, 0), map[], 0), trace).value)
            == EndsIn(b, DirectBodyIn(body, 0, Fed(p, drift, b, trace), Counted(s0, 0)).1)
  {
    var q := Fed(p, drift, b, trace);
    FedIsPure(p, drift, b, trace);
    assert trace[..|trace|] == trace;
    var x, n := D.LedTo(EffectCode(body, p, drift, b), Spot(0, Counted(s0, 0), map[], 0), trace).value,
                BodyWaits(body, 0);
    LedIsResumedIn(body, p, drift, b, s0, trace, |trace|, n);
    ExecIgnoresAnswers(body, x.index, p, drift, b, trace, x.s, x.stamps);
    BodyIsDirectIn(body, q, Counted(s0, 0), |trace| + n);
    hide DirectBodyIn, ExecIn, GoodBody, Fed, PureOperators;
    var t := ExecIn(body, x.index, q, x.s, x.stamps);
    assert t.FinishedIn? && ResumedIn(body, x.index, q, x.s, x.stamps, n) == t;
  }

  lemma FedIsPure<S(!new)>(p: Program<S>, drift: (nat, S) -> S, b: Bridge, trace: D.Trace)
    requires PureOperators(p)
    ensures PureOperators(Fed(p, drift, b, trace))
  {
    var q := Fed(p, drift, b, trace);
    forall s: Counted<S>, s1: Counted<S>, op, x, y ensures q.binary(s, op, x, y) == q.binary(s1, op, x, y) {
      assert p.binary(s.s, op, x, y) == p.binary(s1.s, op, x, y);
    }
    forall s: Counted<S>, s1: Counted<S>, op, v ensures q.stops(s, op, v) == q.stops(s1, op, v) {
      assert p.stops(s.s, op, v) == p.stops(s1.s, op, v);
    }
  }
}
