/** Whether re-running computes what evaluating once would, for programs with effects. Direct evaluation threads the
    same state and evaluates everything once. The two agree in every program exactly when no two awaits stand side by
    side and nothing but constants stands to the left of one. */
module AwaitDirect {
  import opened Wrappers
  import opened Arith
  import opened AwaitRerun
  import opened AwaitCost
  import opened AwaitEffects

  // ---------- direct evaluation ----------

  type Ended<S> = (S, Result<Value>)

  function CallIn<S>(f: nat, p: Program<S>, a: Ended<S>): Ended<S> {
    if a.1.Ok? then p.call(a.0, f, a.1.value) else a
  }

  function WaitIn<S>(id: AwaitId, p: Program<S>, o: Ended<S>): Ended<S> {
    if o.1.Ok? then p.settle(o.0, id, o.1.value) else o
  }

  function RightIn<S>(op: string, left: Value, p: Program<S>, r: Ended<S>): Ended<S> {
    if r.1.Ok? then (r.0, p.binary(r.0, op, left, r.1.value)) else r
  }

  function DirectIn<S>(e: Expr, p: Program<S>, s: S): Ended<S>
    decreases e, 0
  {
    match e
    case Lit(v) => (s, Ok(v))
    case Var(x) => (s, p.read(s, x))
    case Call(f, arg) => CallIn(f, p, DirectIn(arg, p, s))
    case Binary(op, left, right) => LeftIn(op, right, p, DirectIn(left, p, s))
    case Await(id, operand) => WaitIn(id, p, DirectIn(operand, p, s))
  }

  function LeftIn<S>(op: string, right: Expr, p: Program<S>, l: Ended<S>): Ended<S>
    decreases right, 1
  {
    if l.1.Err? || p.stops(l.0, op, l.1.value) then l else RightIn(op, l.1.value, p, DirectIn(right, p, l.0))
  }

  /** Operators compute from their operands alone. */
  ghost predicate PureOperators<S(!new)>(p: Program<S>) {
    && (forall s, s1, op, x, y :: p.binary(s, op, x, y) == p.binary(s1, op, x, y))
    && (forall s, s1, op, v :: p.stops(s, op, v) == p.stops(s1, op, v))
  }

  /** With enough resumptions the statement ends as direct evaluation does, and in the same state. */
  ghost predicate Agrees<S>(e: Expr, p: Program<S>, s: S, resumptions: nat) {
    var d, once := DriveIn(e, p, s, map[], resumptions), DirectIn(e, p, s);
    d.d.outcome == Raise(once.1) && d.s == once.0
  }

  // ---------- the statements for which they agree ----------

  /** Literals, and operators on literals. */
  predicate Constant(e: Expr) {
    match e
    case Lit(_) => true
    case Binary(_, left, right) => Constant(left) && Constant(right)
    case _ => false
  }

  /** No two awaits side by side; one may stand inside the operand of another. */
  predicate Single(e: Expr) {
    match e
    case Lit(_) => true
    case Var(_) => true
    case Call(_, arg) => Single(arg)
    case Binary(_, left, right) => (Ids(left) == {} || Ids(right) == {}) && Single(left) && Single(right)
    case Await(_, operand) => Single(operand)
  }

  /** And nothing but constants to the left of one under the same operator. */
  predicate Resumable(e: Expr) {
    match e
    case Lit(_) => true
    case Var(_) => true
    case Call(_, arg) => Resumable(arg)
    case Binary(_, left, right) => if Ids(right) != {} then Constant(left) && Resumable(right) else Resumable(left)
    case Await(_, operand) => Resumable(operand)
  }

  function Waits(e: Expr): nat {
    match e
    case Lit(_) => 0
    case Var(_) => 0
    case Call(_, arg) => Waits(arg)
    case Binary(_, left, right) => Waits(left) + Waits(right)
    case Await(_, operand) => Waits(operand) + 1
  }

  lemma {:induction false} WaitsIffIds(e: Expr)
    ensures Waits(e) > 0 <==> Ids(e) != {}
  {
    match e
    case Lit(_) =>
    case Var(_) =>
    case Call(_, arg) => WaitsIffIds(arg);
    case Binary(_, left, right) =>
      WaitsIffIds(left);
      WaitsIffIds(right);
    case Await(id, _) => assert id in Ids(e);
  }

  /** How many awaits have the await id in their operand. */
  function Around(e: Expr, id: AwaitId): nat {
    match e
    case Lit(_) => 0
    case Var(_) => 0
    case Call(_, arg) => Around(arg, id)
    case Binary(_, left, right) => if Ids(right) != {} then Around(right, id) else Around(left, id)
    case Await(i, operand) => if i == id then 0 else Around(operand, id) + 1
  }

  lemma {:induction false} AroundBelow(e: Expr, id: AwaitId)
    ensures Around(e, id) <= Waits(e) && (id in Ids(e) ==> Around(e, id) < Waits(e))
  {
    match e
    case Lit(_) =>
    case Var(_) =>
    case Call(_, arg) => AroundBelow(arg, id);
    case Await(_, operand) => AroundBelow(operand, id);
    case Binary(_, left, right) =>
      WaitsIffIds(left);
      AroundBelow(left, id);
      AroundBelow(right, id);
  }

  /** The outcome of a run that did not suspend. */
  ghost predicate EndsAs<S>(x: RunIn<S>, d: Ended<S>) {
    x.r.outcome == Raise(d.1) && x.s == d.0
  }

  /** Without an await a run ignores the stamps and evaluates directly. */
  lemma {:induction false} RunWithoutAwait<S>(e: Expr, p: Program<S>, s: S, stamps: Stamps)
    requires Ids(e) == {}
    ensures Eval(e, p, s, stamps).r.stamps == stamps && EndsAs(Eval(e, p, s, stamps), DirectIn(e, p, s))
  {
    WaitsIffIds(e);
    match e
    case Lit(_) =>
    case Var(_) =>
    case Call(_, arg) => RunWithoutAwait(arg, p, s, stamps);
    case Binary(_, left, right) =>
      RunWithoutAwait(left, p, s, stamps);
      RunWithoutAwait(right, p, DirectIn(left, p, s).0, stamps);
    case Await(_, _) =>
  }

  lemma {:induction false} ConstantHasNoAwait(e: Expr)
    requires Constant(e)
    ensures Ids(e) == {}
  {
    match e
    case Lit(_) =>
    case Binary(_, left, right) =>
      ConstantHasNoAwait(left);
      ConstantHasNoAwait(right);
  }

  lemma {:induction false} ConstantAnywhere<S(!new)>(e: Expr, p: Program<S>, s: S, s1: S)
    requires Constant(e) && PureOperators(p)
    ensures DirectIn(e, p, s).0 == s && DirectIn(e, p, s1) == (s1, DirectIn(e, p, s).1)
  {
    match e
    case Lit(_) =>
    case Binary(_, left, right) =>
      ConstantAnywhere(left, p, s, s1);
      ConstantAnywhere(right, p, s, s1);
  }

  // ---------- the rest of a statement around an await ----------

  /** Direct evaluation of what comes after the await id has been answered with r. */
  function From<S>(e: Expr, p: Program<S>, s: S, id: AwaitId, r: Result<Value>): Ended<S> {
    match e
    case Lit(_) => (s, r)
    case Var(_) => (s, r)
    case Call(f, arg) => CallIn(f, p, From(arg, p, s, id, r))
    case Binary(op, left, right) =>
      if Ids(right) != {} then
        var l := DirectIn(left, p, s);
        if l.1.Ok? then RightIn(op, l.1.value, p, From(right, p, l.0, id, r)) else l
      else LeftIn(op, right, p, From(left, p, s, id, r))
    case Await(i, operand) => if i == id then (s, r) else WaitIn(i, p, From(operand, p, s, id, r))
  }

  /** Every operator on the way to the await id goes on to its right operand. */
  ghost predicate OnWay<S(!new)>(e: Expr, p: Program<S>, id: AwaitId) {
    match e
    case Lit(_) => false
    case Var(_) => false
    case Call(_, arg) => OnWay(arg, p, id)
    case Binary(op, left, right) =>
      if Ids(right) != {} then
        OnWay(right, p, id) && forall s :: DirectIn(left, p, s).1.Ok? && !p.stops(s, op, DirectIn(left, p, s).1.value)
      else OnWay(left, p, id)
    case Await(i, operand) => i == id || OnWay(operand, p, id)
  }

  /** A run stands at an await: nothing stamped is left, and once that await is settled the rest is d. */
  ghost predicate StopsFor<S(!new)>(e: Expr, p: Program<S>, x: RunIn<S>, d: Ended<S>) {
    && x.r.outcome.Suspended? && x.r.stamps == map[] && x.r.outcome.id in Ids(e) && OnWay(e, p, x.r.outcome.id)
    && var t := p.settle(x.s, x.r.outcome.id, x.r.outcome.operand); From(e, p, t.0, x.r.outcome.id, t.1) == d
  }

  ghost predicate ComesTo<S(!new)>(e: Expr, p: Program<S>, x: RunIn<S>, d: Ended<S>) {
    if x.r.outcome.Suspended? then StopsFor(e, p, x, d) else x.r.stamps == map[] && EndsAs(x, d)
  }

  lemma CallComes<S(!new)>(e: Expr, p: Program<S>, s: S, stamps: Stamps, d: Ended<S>)
    requires e.Call? && ComesTo(e.arg, p, Eval(e.arg, p, s, stamps), d)
    ensures ComesTo(e, p, Eval(e, p, s, stamps), CallIn(e.f, p, d))
  {
  }

  lemma AwaitComes<S(!new)>(e: Expr, p: Program<S>, s: S, stamps: Stamps, d: Ended<S>)
    requires e.Await? && e.id !in stamps && e.id !in Ids(e.operand)
    requires ComesTo(e.operand, p, Eval(e.operand, p, s, stamps), d)
    ensures ComesTo(e, p, Eval(e, p, s, stamps), WaitIn(e.id, p, d))
  {
  }

  lemma LeftComes<S(!new)>(e: Expr, p: Program<S>, s: S, stamps: Stamps, d: Ended<S>)
    requires e.Binary? && Ids(e.right) == {} && ComesTo(e.left, p, Eval(e.left, p, s, stamps), d)
    ensures ComesTo(e, p, Eval(e, p, s, stamps), LeftIn(e.op, e.right, p, d))
  {
    var l := Eval(e.left, p, s, stamps);
    RunWithoutAwait(e.right, p, l.s, l.r.stamps);
  }

  lemma RightComes<S(!new)>(e: Expr, p: Program<S>, s: S, stamps: Stamps, v: Value, d: Ended<S>)
    requires e.Binary? && Ids(e.right) != {} && Constant(e.left) && PureOperators(p)
    requires DirectIn(e.left, p, s) == (s, Ok(v)) && !p.stops(s, e.op, v)
    requires ComesTo(e.right, p, Eval(e.right, p, s, stamps), d)
    ensures ComesTo(e, p, Eval(e, p, s, stamps), RightIn(e.op, v, p, d))
  {
    ConstantHasNoAwait(e.left);
    RunWithoutAwait(e.left, p, s, stamps);
    forall s1 ensures DirectIn(e.left, p, s1) == (s1, Ok(v)) {
      ConstantAnywhere(e.left, p, s, s1);
    }
    hide DirectIn;
  }

  /** The first run. */
  lemma {:induction false} FreshRun<S(!new)>(e: Expr, p: Program<S>, s: S)
    requires Resumable(e) && DistinctIds(e) && PureOperators(p)
    ensures ComesTo(e, p, Eval(e, p, s, map[]), DirectIn(e, p, s))
  {
    hide ComesTo;
    match e
    case Lit(_) => RunWithoutAwait(e, p, s, map[]); PlainComes(e, p, s);
    case Var(_) => RunWithoutAwait(e, p, s, map[]); PlainComes(e, p, s);
    case Call(_, arg) =>
      FreshRun(arg, p, s);
      CallComes(e, p, s, map[], DirectIn(arg, p, s));
    case Await(_, operand) =>
      FreshRun(operand, p, s);
      AwaitComes(e, p, s, map[], DirectIn(operand, p, s));
    case Binary(op, left, right) =>
      if Ids(right) == {} {
        FreshRun(left, p, s);
        LeftComes(e, p, s, map[], DirectIn(left, p, s));
      } else {
        ConstantAnywhere(left, p, s, s);
        ConstantHasNoAwait(left);
        RunWithoutAwait(left, p, s, map[]);
        var l := DirectIn(left, p, s);
        if l.1.Ok? && !p.stops(s, op, l.1.value) {
          FreshRun(right, p, s);
          RightComes(e, p, s, map[], l.1.value, DirectIn(right, p, s));
        } else {
          LeftEnds(e, p, s);
        }
      }
  }

  lemma PlainComes<S(!new)>(e: Expr, p: Program<S>, s: S)
    requires Eval(e, p, s, map[]).r.stamps == map[] && EndsAs(Eval(e, p, s, map[]), DirectIn(e, p, s))
    ensures ComesTo(e, p, Eval(e, p, s, map[]), DirectIn(e, p, s))
  {
  }

  lemma LeftEnds<S(!new)>(e: Expr, p: Program<S>, s: S)
    requires e.Binary? && Ids(e.left) == {}
    requires var l := DirectIn(e.left, p, s); l.1.Err? || p.stops(l.0, e.op, l.1.value)
    ensures ComesTo(e, p, Eval(e, p, s, map[]), DirectIn(e, p, s))
  {
    RunWithoutAwait(e.left, p, s, map[]);
  }

  /** A later run, with the await id stamped. */
  lemma {:induction false} StampedRun<S(!new)>(e: Expr, p: Program<S>, s: S, id: AwaitId, r: Result<Value>)
    requires Resumable(e) && DistinctIds(e) && PureOperators(p) && id in Ids(e) && OnWay(e, p, id)
    ensures ComesTo(e, p, Eval(e, p, s, map[id := r]), From(e, p, s, id, r))
    ensures var x := Eval(e, p, s, map[id := r]);
            x.r.outcome.Suspended? ==> Around(e, x.r.outcome.id) < Around(e, id)
    decreases e
  {
    hide ComesTo;
    var stamps := map[id := r];
    match e
    case Call(_, arg) =>
      StampedRun(arg, p, s, id, r);
      CallComes(e, p, s, stamps, From(arg, p, s, id, r));
    case Await(i, operand) =>
      if i == id {
        HereComes(e, p, s, r);
      } else {
        StampedRun(operand, p, s, id, r);
        SuspendsInside(operand, p, s, stamps, From(operand, p, s, id, r));
        AwaitComes(e, p, s, stamps, From(operand, p, s, id, r));
      }
    case Binary(op, left, right) =>
      if Ids(right) == {} {
        StampedRun(left, p, s, id, r);
        RightWithoutAwait(e, p, s, stamps);
        LeftComes(e, p, s, stamps, From(left, p, s, id, r));
      } else {
        ConstantAnywhere(left, p, s, s);
        ConstantHasNoAwait(left);
        RunWithoutAwait(left, p, s, stamps);
        var l := DirectIn(left, p, s);
        StampedRun(right, p, s, id, r);
        RightComes(e, p, s, stamps, l.1.value, From(right, p, s, id, r));
      }
  }

  lemma SuspendsInside<S(!new)>(e: Expr, p: Program<S>, s: S, stamps: Stamps, d: Ended<S>)
    requires ComesTo(e, p, Eval(e, p, s, stamps), d)
    ensures Eval(e, p, s, stamps).r.outcome.Suspended? ==> Eval(e, p, s, stamps).r.outcome.id in Ids(e)
  {
  }

  lemma RightWithoutAwait<S>(e: Expr, p: Program<S>, s: S, stamps: Stamps)
    requires e.Binary? && Ids(e.right) == {}
    ensures Eval(e, p, s, stamps).r.outcome.Suspended? ==>
              Eval(e, p, s, stamps).r.outcome == Eval(e.left, p, s, stamps).r.outcome
  {
    var l := Eval(e.left, p, s, stamps);
    RunWithoutAwait(e.right, p, l.s, l.r.stamps);
  }

  lemma HereComes<S(!new)>(e: Expr, p: Program<S>, s: S, r: Result<Value>)
    requires e.Await?
    ensures ComesTo(e, p, Eval(e, p, s, map[e.id := r]), (s, r)) && !Eval(e, p, s, map[e.id := r]).r.outcome.Suspended?
  {
    assert map[e.id := r] - {e.id} == map[];
  }

  // ---------- all the runs ----------

  lemma {:induction false} DriveFromStamp<S(!new)>(e: Expr, p: Program<S>, s: S, id: AwaitId, r: Result<Value>, n: nat)
    requires Resumable(e) && DistinctIds(e) && PureOperators(p) && id in Ids(e) && OnWay(e, p, id)
    requires n >= Around(e, id)
    ensures var d, f := DriveIn(e, p, s, map[id := r], n), From(e, p, s, id, r);
            d.d.outcome == Raise(f.1) && d.s == f.0
    decreases n
  {
    StampedRun(e, p, s, id, r);
    hide From, Eval, OnWay, Around, Resumable, DistinctIds, PureOperators;
    var x := Eval(e, p, s, map[id := r]);
    if x.r.outcome.Suspended? {
      var t := p.settle(x.s, x.r.outcome.id, x.r.outcome.operand);
      assert x.r.stamps[x.r.outcome.id := t.1] == map[x.r.outcome.id := t.1];
      DriveFromStamp(e, p, t.0, x.r.outcome.id, t.1, n - 1);
    }
  }

  /** A resumable statement ends as direct evaluation does, whatever its calls do and its promises bring, and leaves the
      same state. */
  lemma RerunIsDirectIn<S(!new)>(e: Expr, p: Program<S>, s: S, resumptions: nat)
    requires Resumable(e) && DistinctIds(e) && PureOperators(p) && resumptions >= Waits(e)
    ensures Agrees(e, p, s, resumptions)
  {
    FreshRun(e, p, s);
    var x := Eval(e, p, s, map[]);
    if x.r.outcome.Suspended? {
      AroundBelow(e, x.r.outcome.id);
      var t := p.settle(x.s, x.r.outcome.id, x.r.outcome.operand);
      assert x.r.stamps[x.r.outcome.id := t.1] == map[x.r.outcome.id := t.1];
      DriveFromStamp(e, p, t.0, x.r.outcome.id, t.1, resumptions - 1);
    }
  }

  // ---------- two awaits side by side ----------

  /** Every wait is counted in the state, and nothing else happens. */
  function Counting(names: set<string>): Program<int> {
    Program((s: int, x) => if x in names then Ok(Undefined) else Err("ReferenceError"),
            (s: int, f, v) => (s, Ok(Undefined)), (s: int, op, x, y) => Ok(Undefined), (s: int, op, v) => false,
            (s: int, id, v) => (s + 1, Ok(Undefined)), (s: int, x, v) => s)
  }

  lemma {:induction false} DirectCounts(e: Expr, names: set<string>, s: int)
    requires Vars(e) <= names
    ensures DirectIn(e, Counting(names), s).1.Ok? && DirectIn(e, Counting(names), s).0 == s + Waits(e)
  {
    match e
    case Lit(_) =>
    case Var(_) =>
    case Call(_, arg) => DirectCounts(arg, names, s);
    case Await(_, operand) => DirectCounts(operand, names, s);
    case Binary(_, left, right) =>
      DirectCounts(left, names, s);
      DirectCounts(right, names, s + Waits(left));
  }

  lemma {:induction false} RunCountsNothing(e: Expr, names: set<string>, s: int, stamps: Stamps)
    ensures Eval(e, Counting(names), s, stamps).s == s
  {
    match e
    case Lit(_) =>
    case Var(_) =>
    case Call(_, arg) => RunCountsNothing(arg, names, s, stamps);
    case Await(_, operand) => RunCountsNothing(operand, names, s, stamps);
    case Binary(_, left, right) =>
      RunCountsNothing(left, names, s, stamps);
      RunCountsNothing(right, names, s, Eval(left, Counting(names), s, stamps).r.stamps);
  }

  lemma {:induction false} DriveCounts(e: Expr, names: set<string>, s: int, stamps: Stamps, n: nat)
    ensures var x := DriveIn(e, Counting(names), s, stamps, n); x.s == s + x.d.suspensions
    decreases n
  {
    RunCountsNothing(e, names, s, stamps);
    var x := Eval(e, Counting(names), s, stamps);
    if x.r.outcome.Suspended? && n > 0 {
      var t := Counting(names).settle(x.s, x.r.outcome.id, x.r.outcome.operand);
      DriveCounts(e, names, t.0, x.r.stamps[x.r.outcome.id := t.1], n - 1);
    }
  }

  /** There are more runs than awaits, and more still when two stand side by side. */
  lemma {:induction false} RunsExceedWaits(e: Expr, names: set<string>)
    requires Vars(e) <= names
    ensures var n := Runs(e, Shape(SMOOTH), EnvOf(names)); n > Waits(e) && (!Single(e) ==> n > Waits(e) + 1)
  {
    match e
    case Lit(_) =>
    case Var(_) =>
    case Call(_, arg) => RunsExceedWaits(arg, names);
    case Await(_, operand) =>
      RunsExceedWaits(operand, names);
      SmoothReachesAll(operand, names);
    case Binary(_, left, right) =>
      RunsExceedWaits(left, names);
      RunsExceedWaits(right, names);
      SmoothReachesAll(left, names);
      WaitsIffIds(left);
      WaitsIffIds(right);
      var a, b := Runs(left, Shape(SMOOTH), EnvOf(names)), Runs(right, Shape(SMOOTH), EnvOf(names));
      assert Runs(e, Shape(SMOOTH), EnvOf(names)) == Mul(a, b);
      ProductExceeds(a, b);
  }

  lemma ProductExceeds(a: nat, b: nat)
    requires a > 0 && b > 0
    ensures Mul(a, b) >= a + b - 1 && (a > 1 && b > 1 ==> Mul(a, b) >= a + b)
  {
    assert (a - 1) * (b - 1) >= 0;
    assert a * b == (a - 1) * (b - 1) + a + b - 1;
    if a > 1 && b > 1 { assert (a - 1) * (b - 1) >= 1; }
  }

  lemma SideBySideDisagrees(e: Expr, n: nat)
    requires DistinctIds(e) && !Single(e)
    ensures PureOperators(Counting(Vars(e))) && !Agrees(e, Counting(Vars(e)), 0, n)
  {
    var names := Vars(e);
    var p, all := Counting(names), (s: int) => names;
    CountingIsSteady(names);
    hide DriveIn, DirectIn, Runs, Single, DistinctIds, Vars, Counting, Steady, PureOperators, Times;
    DirectCounts(e, names, 0);
    DriveCounts(e, names, 0, map[], n);
    RunsExceedWaits(e, names);
    RerunCounts(e, p, SMOOTH, all, 0, EnvOf(names), n, Called(0));
  }

  lemma CountingIsSteady(names: set<string>)
    ensures PureOperators(Counting(names)) && Steady(Counting(names), SMOOTH, (s: int) => names)
  {
  }

  // ---------- a variable or a call to the left of an await ----------

  predicate LitsBelow(e: Expr, b: int) {
    match e
    case Lit(v) => v.Number? ==> v.n < b
    case Var(_) => true
    case Call(_, arg) => LitsBelow(arg, b)
    case Binary(_, left, right) => LitsBelow(left, b) && LitsBelow(right, b)
    case Await(_, operand) => LitsBelow(operand, b)
  }

  function Bound(e: Expr): int {
    match e
    case Lit(v) => if v.Number? then v.n + 1 else 0
    case Var(_) => 0
    case Call(_, arg) => Bound(arg)
    case Binary(_, left, right) => if Bound(left) > Bound(right) then Bound(left) else Bound(right)
    case Await(_, operand) => Bound(operand)
  }

  lemma {:induction false} LitsAreBelow(e: Expr, b: int)
    requires Bound(e) <= b
    ensures LitsBelow(e, b)
  {
    match e
    case Lit(_) =>
    case Var(_) =>
    case Call(_, arg) => LitsAreBelow(arg, b);
    case Await(_, operand) => LitsAreBelow(operand, b);
    case Binary(_, left, right) =>
      LitsAreBelow(left, b);
      LitsAreBelow(right, b);
  }

  /** Number(b) stands for what has changed, Number(b + 1) for what was awaited; both survive operators, the latter
      first. */
  function Mix(b: int, x: Value, y: Value): Value {
    if x == Number(b + 1) || y == Number(b + 1) then Number(b + 1)
    else if x == Number(b) || y == Number(b) then Number(b)
    else Undefined
  }

  /** Variables and calls answer otherwise once a promise has been waited for. */
  function Current(b: int, s: int): Value {
    if s <= 0 then Undefined else Number(b)
  }

  /** Operators refuse a changed left operand beside an awaited right one. */
  function Tracing(b: int): Program<int> {
    Program((s: int, x) => Ok(Current(b, s)), (s: int, f, v) => (s, Ok(Mix(b, v, Current(b, s)))),
            (s: int, op, x, y) => if x == Number(b) && y == Number(b + 1) then Err("changed") else Ok(Mix(b, x, y)),
            (s: int, op, v) => false, (s: int, id, v) => (s + 1, Ok(Number(b + 1))), (s: int, x, v) => s)
  }

  predicate Old(b: int, v: Value) {
    v != Number(b) && v != Number(b + 1)
  }

  lemma {:induction false} TraceWithoutAwait(e: Expr, b: int, s: int)
    requires Ids(e) == {} && LitsBelow(e, b)
    ensures var d := DirectIn(e, Tracing(b), s);
            d.0 == s && d.1.Ok? && if s > 0 && !Constant(e) then d.1.value == Number(b) else Old(b, d.1.value)
  {
    WaitsIffIds(e);
    match e
    case Lit(_) =>
    case Var(_) =>
    case Call(_, arg) => TraceWithoutAwait(arg, b, s);
    case Await(_, _) =>
    case Binary(_, left, right) =>
      TraceWithoutAwait(left, b, s);
      TraceWithoutAwait(right, b, s);
  }

  /** Evaluated once, nothing is refused. */
  lemma {:induction false} TraceDirect(e: Expr, b: int)
    requires Single(e) && LitsBelow(e, b)
    ensures var d := DirectIn(e, Tracing(b), 0);
            d.1.Ok? && if Ids(e) == {} then d.0 == 0 && Old(b, d.1.value) else d.0 > 0 && d.1.value == Number(b + 1)
  {
    match e
    case Lit(_) =>
    case Var(_) =>
    case Call(_, arg) => TraceDirect(arg, b);
    case Await(_, operand) =>
      TraceDirect(operand, b);
      assert e.id in Ids(e);
    case Binary(_, left, right) =>
      TraceDirect(left, b);
      TraceDirect(right, b);
      if Ids(right) == {} { TraceWithoutAwait(right, b, DirectIn(left, Tracing(b), 0).0); }
  }

  /** On its way back to the await id a run evaluates something again that is not a constant. */
  predicate Rereads(e: Expr, id: AwaitId) {
    match e
    case Lit(_) => false
    case Var(_) => false
    case Call(_, arg) => Rereads(arg, id)
    case Binary(_, left, right) =>
      if Ids(right) != {} then !Constant(left) || Rereads(right, id) else Rereads(left, id)
    case Await(i, operand) => i != id && Rereads(operand, id)
  }

  ghost predicate SuspendedRereading(e: Expr, x: RunIn<int>) {
    x.r.outcome.Suspended? && x.r.stamps == map[] && x.r.outcome.id in Ids(e) && Rereads(e, x.r.outcome.id)
  }

  lemma {:induction false} ResumableWithoutAwait(e: Expr)
    requires Ids(e) == {}
    ensures Resumable(e)
  {
    WaitsIffIds(e);
    match e
    case Lit(_) =>
    case Var(_) =>
    case Call(_, arg) => ResumableWithoutAwait(arg);
    case Await(_, _) =>
    case Binary(_, left, right) => ResumableWithoutAwait(left);
  }

  /** The innermost await, where the first run suspends, has all of them to its left. */
  lemma {:induction false} FirstRereads(e: Expr, b: int)
    requires Single(e) && DistinctIds(e) && !Resumable(e) && LitsBelow(e, b)
    ensures SuspendedRereading(e, Eval(e, Tracing(b), 0, map[])) && Eval(e, Tracing(b), 0, map[]).s == 0
  {
    match e
    case Call(_, arg) => FirstRereads(arg, b);
    case Await(_, operand) => FirstRereads(operand, b);
    case Binary(_, left, right) =>
      if Ids(right) != {} {
        TraceWithoutAwait(left, b, 0);
        RunWithoutAwait(left, Tracing(b), 0, map[]);
        if Constant(left) {
          FirstRereads(right, b);
        } else {
          FirstSuspends(right, b);
        }
      } else {
        FirstRereads(left, b);
      }
  }

  lemma {:induction false} FirstSuspends(e: Expr, b: int)
    requires Single(e) && LitsBelow(e, b) && Ids(e) != {}
    ensures var x := Eval(e, Tracing(b), 0, map[]);
            x.r.outcome.Suspended? && x.r.stamps == map[] && x.r.outcome.id in Ids(e) && x.s == 0
  {
    match e
    case Call(_, arg) => FirstSuspends(arg, b);
    case Await(_, operand) =>
      if Ids(operand) == {} {
        TraceWithoutAwait(operand, b, 0);
        RunWithoutAwait(operand, Tracing(b), 0, map[]);
      } else {
        FirstSuspends(operand, b);
      }
    case Binary(_, left, right) =>
      if Ids(right) != {} {
        TraceWithoutAwait(left, b, 0);
        RunWithoutAwait(left, Tracing(b), 0, map[]);
        FirstSuspends(right, b);
      } else {
        FirstSuspends(left, b);
      }
  }

  /** After a wait a run that rereads is refused, or suspends at the next await with the rereading still to come. */
  lemma {:induction false} TraceRerun(e: Expr, b: int, s: int, id: AwaitId)
    requires Single(e) && DistinctIds(e) && LitsBelow(e, b) && id in Ids(e) && s > 0
    ensures var x := Eval(e, Tracing(b), s, map[id := Ok(Number(b + 1))]);
            && x.s == s
            && if Rereads(e, id) then x.r.outcome.Threw? || SuspendedRereading(e, x)
               else x.r.stamps == map[]
                    && (x.r.outcome == Done(Number(b + 1)) || (x.r.outcome.Suspended? && x.r.outcome.id in Ids(e)))
    decreases e
  {
    var p, stamps := Tracing(b), map[id := Ok(Number(b + 1))];
    match e
    case Call(_, arg) => TraceRerun(arg, b, s, id);
    case Await(i, operand) =>
      if i == id {
        assert stamps - {id} == map[];
      } else {
        TraceRerun(operand, b, s, id);
      }
    case Binary(_, left, right) =>
      if Ids(right) != {} {
        TraceWithoutAwait(left, b, s);
        RunWithoutAwait(left, p, s, stamps);
        TraceRerun(right, b, s, id);
      } else {
        TraceRerun(left, b, s, id);
        TraceWithoutAwait(right, b, s);
        RunWithoutAwait(right, p, s, Eval(left, p, s, stamps).r.stamps);
      }
  }

  lemma {:induction false} NeverDone(e: Expr, b: int, s: int, id: AwaitId, n: nat)
    requires Single(e) && DistinctIds(e) && LitsBelow(e, b) && id in Ids(e) && s > 0 && Rereads(e, id)
    ensures !DriveIn(e, Tracing(b), s, map[id := Ok(Number(b + 1))], n).d.outcome.Done?
    decreases n
  {
    TraceRerun(e, b, s, id);
    hide Eval, Single, DistinctIds, LitsBelow, Ids, Rereads;
    var x := Eval(e, Tracing(b), s, map[id := Ok(Number(b + 1))]);
    if x.r.outcome.Suspended? && n > 0 {
      assert x.r.stamps[x.r.outcome.id := Ok(Number(b + 1))] == map[x.r.outcome.id := Ok(Number(b + 1))];
      NeverDone(e, b, s + 1, x.r.outcome.id, n - 1);
    }
  }

  lemma RereadingDisagrees(e: Expr, n: nat)
    requires DistinctIds(e) && Single(e) && !Resumable(e)
    ensures PureOperators(Tracing(Bound(e))) && !Agrees(e, Tracing(Bound(e)), 0, n)
  {
    var b := Bound(e);
    LitsAreBelow(e, b);
    TraceDirect(e, b);
    FirstRereads(e, b);
    hide Eval, DirectIn, Single, DistinctIds, LitsBelow, Ids, Rereads, Resumable;
    var x := Eval(e, Tracing(b), 0, map[]);
    if n > 0 {
      assert x.r.stamps[x.r.outcome.id := Ok(Number(b + 1))] == map[x.r.outcome.id := Ok(Number(b + 1))];
      NeverDone(e, b, 1, x.r.outcome.id, n - 1);
    }
  }

  // ---------- the exact condition ----------

  /** Re-running ends as direct evaluation does, with the same value or exception and in the same state, in every
      program and from every state, exactly when no two awaits stand side by side and nothing but constants stands to
      the left of one. */
  lemma DirectExactly(e: Expr)
    requires DistinctIds(e)
    ensures (forall p: Program<int>, s: int, n: nat | PureOperators(p) && n >= Waits(e) :: Agrees(e, p, s, n))
       <==> Resumable(e)
  {
    if Resumable(e) {
      forall p: Program<int>, s: int, n: nat | PureOperators(p) && n >= Waits(e) ensures Agrees(e, p, s, n) {
        RerunIsDirectIn(e, p, s, n);
      }
    } else if Single(e) {
      RereadingDisagrees(e, Waits(e));
    } else {
      SideBySideDisagrees(e, Waits(e));
    }
  }

  function Plus(x: Value, y: Value): Result<Value> {
    if x.Number? && y.Number? then Ok(Number(x.n + y.n)) else Err("TypeError")
  }

  /** A counter behind a function: each call counts one further and returns the count. */
  const TICKING: Program<int> :=
    Program((s: int, x) => Err("ReferenceError"), (s: int, f, v) => (s + 1, Ok(Number(s + 1))),
            (s: int, op, x, y) => Plus(x, y), (s: int, op, v) => false, (s: int, id, v) => (s, Ok(v)),
            (s: int, x, v) => s)

  /** next() + await 0: evaluated once it is 1 and next has counted to 1; re-run, next is called again, counts to 2, and
      2 is the result. */
  lemma NextIsCalledAgain()
    ensures var e := Binary("+", Call(0, Lit(Undefined)), Await(0, Lit(Number(0))));
            && DirectIn(e, TICKING, 0) == (1, Ok(Number(1)))
            && DriveIn(e, TICKING, 0, map[], 1)
               == DrivenIn(Driven(Done(Number(2)), 1, [Called(0), Awaited(0), Called(0)]), 2)
  {
    var next, wait := Call(0, Lit(Undefined)), Await(0, Lit(Number(0)));
    var e := Binary("+", next, wait);
    assert DirectIn(next, TICKING, 0) == (1, Ok(Number(1))) && DirectIn(wait, TICKING, 1) == (1, Ok(Number(0)));
    assert Eval(next, TICKING, 0, map[]) == RunIn(RunResult(Done(Number(1)), map[], [Called(0)]), 1);
    assert Eval(wait, TICKING, 1, map[]) == RunIn(RunResult(Suspended(0, Number(0)), map[], [Awaited(0)]), 1);
    var stamps: Stamps := map[0 := Ok(Number(0))];
    assert stamps - {0} == map[];
    assert Eval(next, TICKING, 1, stamps) == RunIn(RunResult(Done(Number(2)), stamps, [Called(0)]), 2);
    assert Eval(wait, TICKING, 2, stamps) == RunIn(RunResult(Done(Number(0)), map[], []), 2);
    var first := Eval(e, TICKING, 0, map[]);
    assert first == RunIn(RunResult(Suspended(0, Number(0)), map[], [Called(0), Awaited(0)]), 1);
    assert first.r.stamps[0 := Ok(Number(0))] == stamps;
    assert Eval(e, TICKING, 1, stamps) == RunIn(RunResult(Done(Number(2)), map[], [Called(0)]), 2);
  }
}
