/** What re-running a statement costs: how many runs it takes, and how often each call and each await is evaluated. */
module AwaitCost {
  import opened Wrappers
  import opened AwaitRerun
  import opened Arith

  function Count(log: seq<Event>, ev: Event): nat {
    if log == [] then 0 else (if log[0] == ev then 1 else 0) + Count(log[1..], ev)
  }

  lemma {:induction false} CountConcat(a: seq<Event>, b: seq<Event>, ev: Event)
    ensures Count(a + b, ev) == Count(a, ev) + Count(b, ev)
  {
    if a == [] {
      assert a + b == b;
    } else {
      CountConcat(a[1..], b, ev);
      assert (a + b)[1..] == a[1..] + b;
    }
  }

  lemma CountOne(log: seq<Event>, x: Event, ev: Event)
    ensures Count(log + [x], ev) == Count(log, ev) + if x == ev then 1 else 0
    ensures log + [] == log
  {
    CountConcat(log, [x], ev);
    assert Count([x], ev) == if x == ev then 1 else 0;
  }

  /** The number of runs: operands of one operator multiply, an await adds one to its own operand. */
  function Runs(e: Expr, m: Meaning, env: Env): nat {
    match e
    case Lit(_) => 1
    case Var(_) => 1
    case Call(_, arg) => Runs(arg, m, env)
    case Binary(_, left, right) =>
      if GoesRight(e, m, env) then Mul(Runs(left, m, env), Runs(right, m, env)) else Runs(left, m, env)
    case Await(_, operand) => Runs(operand, m, env) + if Direct(operand, m, env).Ok? then 1 else 0
  }

  /** How often an event occurs: what stands left of an operand is repeated in every run the operand takes. */
  function Times(e: Expr, m: Meaning, env: Env, ev: Event): nat {
    match e
    case Lit(_) => 0
    case Var(_) => 0
    case Call(f, arg) => Times(arg, m, env, ev) + if Direct(arg, m, env).Ok? && ev == Called(f) then 1 else 0
    case Binary(_, left, right) =>
      if GoesRight(e, m, env) then Mul(Times(left, m, env, ev), Runs(right, m, env)) + Times(right, m, env, ev)
      else Times(left, m, env, ev)
    case Await(id, operand) =>
      Times(operand, m, env, ev) + if Direct(operand, m, env).Ok? && ev == Awaited(id) then 1 else 0
  }

  // ---------- positions, numbered ----------

  ghost function Rank(e: Expr, m: Meaning, env: Env, p: Position): nat
    requires At(e, m, env, p)
  {
    match e
    case Lit(_) => 0
    case Var(_) => 0
    case Call(_, arg) => Rank(arg, m, env, p)
    case Await(_, operand) => if p.HasStamp? then Runs(operand, m, env) else Rank(operand, m, env, p.p)
    case Binary(_, left, right) =>
      if GoesRight(e, m, env)
      then Rank(left, m, env, p.low) + Mul(Rank(right, m, env, p.high), Runs(left, m, env))
      else Rank(left, m, env, p)
  }

  /** Events in the runs before position p. */
  ghost function Seen(e: Expr, m: Meaning, env: Env, p: Position, ev: Event): nat
    requires At(e, m, env, p)
  {
    match e
    case Lit(_) => 0
    case Var(_) => 0
    case Call(_, arg) => Seen(arg, m, env, p, ev)
    case Await(id, operand) =>
      if p.HasStamp? then Times(e, m, env, ev) else Seen(operand, m, env, p.p, ev)
    case Binary(_, left, right) =>
      if GoesRight(e, m, env)
      then Seen(left, m, env, p.low, ev) + Mul(Rank(right, m, env, p.high), Times(left, m, env, ev))
           + Seen(right, m, env, p.high, ev)
      else Seen(left, m, env, p, ev)
  }

  lemma {:induction false} FirstCounts(e: Expr, m: Meaning, env: Env, ev: Event)
    ensures Rank(e, m, env, First(e, m, env)) == 0 && Seen(e, m, env, First(e, m, env), ev) == 0
  {
    match e
    case Lit(_) =>
    case Var(_) =>
    case Call(_, arg) => FirstCounts(arg, m, env, ev);
    case Await(_, operand) => FirstCounts(operand, m, env, ev);
    case Binary(_, left, right) => FirstCounts(left, m, env, ev); FirstCounts(right, m, env, ev);
  }

  ghost predicate Counted(e: Expr, m: Meaning, env: Env, p: Position, ev: Event)
    requires At(e, m, env, p)
  {
    var here := Seen(e, m, env, p, ev) + Count(Segment(e, m, env, p), ev);
    if IsLast(e, m, env, p) then
      Rank(e, m, env, p) + 1 == Runs(e, m, env) && here == Times(e, m, env, ev)
    else
      var q := Next(e, m, env, p);
      Rank(e, m, env, q) == Rank(e, m, env, p) + 1 && Seen(e, m, env, q, ev) == here
  }

  lemma BothCounted(e: Expr, m: Meaning, env: Env, p: Position, ev: Event)
    requires e.Binary? && GoesRight(e, m, env) && At(e, m, env, p)
    requires Counted(e.left, m, env, p.low, ev) && Counted(e.right, m, env, p.high, ev)
    ensures Counted(e, m, env, p, ev)
  {
    hide Mul;
    var j := Rank(e.right, m, env, p.high);
    if IsLast(e.left, m, env, p.low) {
      FirstCounts(e.left, m, env, ev);
      CountConcat(Segment(e.left, m, env, p.low), Segment(e.right, m, env, p.high), ev);
      OneMore(j, Runs(e.left, m, env));
      OneMore(j, Times(e.left, m, env, ev));
    } else {
      assert Segment(e, m, env, p) == Segment(e.left, m, env, p.low);
    }
  }

  lemma CallCounted(e: Expr, m: Meaning, env: Env, p: Position, ev: Event)
    requires e.Call? && At(e, m, env, p) && Counted(e.arg, m, env, p, ev)
    ensures Counted(e, m, env, p, ev)
  {
    CountOne(Segment(e.arg, m, env, p), Called(e.f), ev);
  }

  lemma AwaitCounted(e: Expr, m: Meaning, env: Env, p: Position, ev: Event)
    requires e.Await? && At(e, m, env, p) && p.InOperand? && Counted(e.operand, m, env, p.p, ev)
    ensures Counted(e, m, env, p, ev)
  {
    CountOne(Segment(e.operand, m, env, p.p), Awaited(e.id), ev);
  }

  /** Where there is nothing to wait for. */
  lemma LeafCounted(e: Expr, m: Meaning, env: Env, p: Position, ev: Event)
    requires At(e, m, env, p) && (e.Lit? || e.Var? || (e.Await? && p.HasStamp?))
    ensures Counted(e, m, env, p, ev)
  {
  }

  lemma LeftCounted(e: Expr, m: Meaning, env: Env, p: Position, ev: Event)
    requires e.Binary? && !GoesRight(e, m, env) && At(e, m, env, p) && Counted(e.left, m, env, p, ev)
    ensures Counted(e, m, env, p, ev)
  {
  }

  /** Each run moves one position on, and its events are accounted for. */
  lemma {:induction false} NextCounts(e: Expr, m: Meaning, env: Env, p: Position, ev: Event)
    requires At(e, m, env, p)
    ensures Counted(e, m, env, p, ev)
  {
    hide Counted, Direct, GoesRight;
    match e
    case Lit(_) => LeafCounted(e, m, env, p, ev);
    case Var(_) => LeafCounted(e, m, env, p, ev);
    case Call(f, arg) =>
      NextCounts(arg, m, env, p, ev);
      CallCounted(e, m, env, p, ev);
    case Await(id, operand) =>
      if p.InOperand? {
        NextCounts(operand, m, env, p.p, ev);
        AwaitCounted(e, m, env, p, ev);
      } else {
        LeafCounted(e, m, env, p, ev);
      }
    case Binary(_, left, right) =>
      if GoesRight(e, m, env) {
        NextCounts(left, m, env, p.low, ev);
        NextCounts(right, m, env, p.high, ev);
        BothCounted(e, m, env, p, ev);
      } else {
        NextCounts(left, m, env, p, ev);
        LeftCounted(e, m, env, p, ev);
      }
  }

  // ---------- the whole of a statement ----------

  datatype Driven = Driven(outcome: Outcome, suspensions: nat, log: seq<Event>)

  /** Runs the statement, resuming it after each suspension, for as many resumptions as are granted. */
  function Drive(e: Expr, m: Meaning, env: Env, stamps: Stamps, resumptions: nat): Driven
    decreases resumptions
  {
    var r := Run(e, m, env, stamps);
    if r.outcome.Suspended? && resumptions > 0 then
      var d := Drive(e, m, env, Stamped(r, m), resumptions - 1);
      Driven(d.outcome, d.suspensions + 1, r.log + d.log)
    else Driven(r.outcome, 0, r.log)
  }

  /** What is left to do from position p, if enough resumptions are granted. */
  ghost predicate DriveEnds(e: Expr, m: Meaning, env: Env, p: Position, resumptions: nat, ev: Event)
    requires At(e, m, env, p)
  {
    var left := Runs(e, m, env) - 1 - Rank(e, m, env, p);
    var d := Drive(e, m, env, StampsAt(e, m, env, p), resumptions);
    left >= 0 &&
    if resumptions < left then d.outcome.Suspended?
    else d.outcome == Raise(Direct(e, m, env)) && d.suspensions == left
         && Count(d.log, ev) + Seen(e, m, env, p, ev) == Times(e, m, env, ev)
  }

  lemma RunFrom(e: Expr, m: Meaning, env: Env, p: Position)
    requires DistinctIds(e) && At(e, m, env, p)
    ensures var r := Run(e, m, env, StampsAt(e, m, env, p));
            r.log == Segment(e, m, env, p)
            && if IsLast(e, m, env, p) then r.outcome == Raise(Direct(e, m, env)) && r.stamps == map[]
               else r.outcome.Suspended? && Stamped(r, m) == StampsAt(e, m, env, Next(e, m, env, p))
  {
    hide Run, Segment, Direct, StampsAt, IsLast, Next, At, Ids, DistinctIds;
    EveryRun(e, m, env, p, map[]);
    assert StampsAt(e, m, env, p) + map[] == StampsAt(e, m, env, p);
    if !IsLast(e, m, env, p) {
      var q := Next(e, m, env, p);
      assert StampsAt(e, m, env, q) + map[] == StampsAt(e, m, env, q);
    }
  }

  lemma DriveStops(e: Expr, m: Meaning, env: Env, p: Position, resumptions: nat, ev: Event)
    requires DistinctIds(e) && At(e, m, env, p) && (IsLast(e, m, env, p) || resumptions == 0)
    ensures DriveEnds(e, m, env, p, resumptions, ev)
  {
    RunFrom(e, m, env, p);
    LastCounts(e, m, env, p, ev);
    hide Run, Segment, Seen, Runs, Times, Direct, Rank, IsLast, At;
  }

  /** The last position has the last number, and no other has. */
  lemma LastCounts(e: Expr, m: Meaning, env: Env, p: Position, ev: Event)
    requires At(e, m, env, p)
    ensures if IsLast(e, m, env, p)
            then Rank(e, m, env, p) + 1 == Runs(e, m, env)
                 && Seen(e, m, env, p, ev) + Count(Segment(e, m, env, p), ev) == Times(e, m, env, ev)
            else Rank(e, m, env, p) + 1 < Runs(e, m, env)
  {
    NextCounts(e, m, env, p, ev);
    hide Run, Segment, Seen, Runs, Times, Direct, Rank, IsLast, At;
    if !IsLast(e, m, env, p) {
      RankBelow(e, m, env, Next(e, m, env, p));
    }
  }

  lemma DriveGoesOn(e: Expr, m: Meaning, env: Env, p: Position, resumptions: nat, ev: Event)
    requires DistinctIds(e) && At(e, m, env, p) && !IsLast(e, m, env, p) && resumptions > 0
    requires DriveEnds(e, m, env, Next(e, m, env, p), resumptions - 1, ev)
    ensures DriveEnds(e, m, env, p, resumptions, ev)
  {
    hide Run, Segment, Seen, Runs, Times, Direct, Rank, IsLast, At, Ids, DistinctIds, StampsAt;
    RunFrom(e, m, env, p);
    NextCounts(e, m, env, p, ev);
    var d := Drive(e, m, env, StampsAt(e, m, env, Next(e, m, env, p)), resumptions - 1);
    CountConcat(Segment(e, m, env, p), d.log, ev);
  }

  lemma {:induction false} DriveFrom(e: Expr, m: Meaning, env: Env, p: Position, resumptions: nat, ev: Event)
    requires DistinctIds(e) && At(e, m, env, p)
    ensures DriveEnds(e, m, env, p, resumptions, ev)
    decreases resumptions
  {
    if IsLast(e, m, env, p) || resumptions == 0 {
      DriveStops(e, m, env, p, resumptions, ev);
    } else {
      DriveFrom(e, m, env, Next(e, m, env, p), resumptions - 1, ev);
      DriveGoesOn(e, m, env, p, resumptions, ev);
    }
  }

  lemma TwoDigits(i: nat, j: nat, a: nat, b: nat)
    requires i < a && j < b
    ensures i + Mul(j, a) < Mul(a, b)
  {
    OneMore(j, a);
    MulGrows(a, j + 1, b);
  }

  lemma {:induction false} RankBelow(e: Expr, m: Meaning, env: Env, p: Position)
    requires At(e, m, env, p)
    ensures Rank(e, m, env, p) < Runs(e, m, env)
  {
    hide Mul;
    match e
    case Lit(_) =>
    case Var(_) =>
    case Call(_, arg) => RankBelow(arg, m, env, p);
    case Await(_, operand) => if p.InOperand? { RankBelow(operand, m, env, p.p); }
    case Binary(_, left, right) =>
      if GoesRight(e, m, env) {
        RankBelow(left, m, env, p.low);
        RankBelow(right, m, env, p.high);
        TwoDigits(Rank(left, m, env, p.low), Rank(right, m, env, p.high), Runs(left, m, env), Runs(right, m, env));
      } else {
        RankBelow(left, m, env, p);
      }
  }

  /** For every expression whose calls and promises answer the same every time: throw-and-re-run ends exactly as
      direct evaluation does, after exactly Runs - 1 suspensions, having evaluated each call and each await exactly
      Times times. */
  lemma RerunIsDirect(e: Expr, m: Meaning, env: Env, resumptions: nat, ev: Event)
    requires DistinctIds(e)
    ensures Runs(e, m, env) > 0
    ensures var d := Drive(e, m, env, map[], resumptions);
            if resumptions < Runs(e, m, env) - 1 then d.outcome.Suspended?
            else d.outcome == Raise(Direct(e, m, env)) && d.suspensions == Runs(e, m, env) - 1
                 && Count(d.log, ev) == Times(e, m, env, ev)
  {
    CleanStart(e, m, env);
    FirstCounts(e, m, env, ev);
    DriveFrom(e, m, env, First(e, m, env), resumptions, ev);
  }

  // ---------- awaits side by side ----------

  /** No await stands inside the operand of another. */
  predicate Flat(e: Expr) {
    match e
    case Lit(_) => true
    case Var(_) => true
    case Call(_, arg) => Flat(arg)
    case Binary(_, left, right) => Flat(left) && Flat(right)
    case Await(_, operand) => Ids(operand) == {}
  }

  /** The awaits direct evaluation comes to, in order. */
  function Reached(e: Expr, m: Meaning, env: Env): seq<AwaitId> {
    match e
    case Lit(_) => []
    case Var(_) => []
    case Call(_, arg) => Reached(arg, m, env)
    case Binary(_, left, right) =>
      Reached(left, m, env) + if GoesRight(e, m, env) then Reached(right, m, env) else []
    case Await(id, operand) => Reached(operand, m, env) + if Direct(operand, m, env).Ok? then [id] else []
  }

  function Pow2(n: nat): nat {
    if n == 0 then 1 else 2 * Pow2(n - 1)
  }

  lemma {:induction false} Pow2Add(a: nat, b: nat)
    ensures Mul(Pow2(a), Pow2(b)) == Pow2(a + b)
  {
    if a > 0 {
      Pow2Add(a - 1, b);
      MulAdd(Pow2(a - 1), Pow2(a - 1), Pow2(b));
      hide Mul;
    } else {
      OneMore(0, Pow2(b));
    }
  }

  lemma {:induction false} ReachedInIds(e: Expr, m: Meaning, env: Env)
    ensures forall id <- Reached(e, m, env) :: id in Ids(e)
    ensures Ids(e) == {} ==> Reached(e, m, env) == [] && Runs(e, m, env) == 1
    ensures forall id | id !in Ids(e) :: Times(e, m, env, Awaited(id)) == 0
  {
    match e
    case Lit(_) =>
    case Var(_) =>
    case Call(_, arg) => ReachedInIds(arg, m, env);
    case Await(id, operand) => ReachedInIds(operand, m, env); assert id in Ids(e);
    case Binary(_, left, right) => ReachedInIds(left, m, env); ReachedInIds(right, m, env);
  }

  /** With n awaits side by side the stamps count in binary: 2^n runs, and the i-th await, counted from 0, is
      evaluated 2^(n-1-i) times. An await whose promise rejects is the last one reached. */
  lemma {:induction false} SiblingsCount(e: Expr, m: Meaning, env: Env)
    requires DistinctIds(e) && Flat(e)
    ensures Runs(e, m, env) == Pow2(|Reached(e, m, env)|)
    ensures forall i | 0 <= i < |Reached(e, m, env)| ::
              Times(e, m, env, Awaited(Reached(e, m, env)[i])) == Pow2(|Reached(e, m, env)| - 1 - i)
  {
    match e
    case Lit(_) =>
    case Var(_) =>
    case Call(_, arg) => SiblingsCount(arg, m, env);
    case Await(id, operand) => ReachedInIds(operand, m, env);
    case Binary(_, left, right) =>
      SiblingsCount(left, m, env);
      if GoesRight(e, m, env) {
        SiblingsCount(right, m, env);
        Pow2Add(|Reached(left, m, env)|, |Reached(right, m, env)|);
        forall i | 0 <= i < |Reached(e, m, env)|
          ensures Times(e, m, env, Awaited(Reached(e, m, env)[i])) == Pow2(|Reached(e, m, env)| - 1 - i)
        {
          SiblingTimes(e, m, env, i);
        }
      }
  }

  lemma SiblingTimes(e: Expr, m: Meaning, env: Env, i: nat)
    requires DistinctIds(e) && e.Binary? && GoesRight(e, m, env) && i < |Reached(e, m, env)|
    requires Runs(e.right, m, env) == Pow2(|Reached(e.right, m, env)|)
    requires forall i | 0 <= i < |Reached(e.left, m, env)| ::
               Times(e.left, m, env, Awaited(Reached(e.left, m, env)[i])) == Pow2(|Reached(e.left, m, env)| - 1 - i)
    requires forall i | 0 <= i < |Reached(e.right, m, env)| ::
               Times(e.right, m, env, Awaited(Reached(e.right, m, env)[i])) == Pow2(|Reached(e.right, m, env)| - 1 - i)
    ensures Times(e, m, env, Awaited(Reached(e, m, env)[i])) == Pow2(|Reached(e, m, env)| - 1 - i)
  {
    var a, b := Reached(e.left, m, env), Reached(e.right, m, env);
    ReachedInIds(e.left, m, env);
    ReachedInIds(e.right, m, env);
    var n := Runs(e.right, m, env);
    assert Reached(e, m, env) == a + b;
    assert forall ev :: Times(e, m, env, ev) == Mul(Times(e.left, m, env, ev), n) + Times(e.right, m, env, ev);
    hide Mul, Reached, Times, Runs, Direct, GoesRight, Pow2, Flat;
    var id := (a + b)[i];
    if i < |a| {
      assert id == a[i] && id in a;
      Pow2Add(|a| - 1 - i, |b|);
    } else {
      assert id == b[i - |a|] && id in b;
      assert Times(e.left, m, env, Awaited(id)) == 0;
      OneMore(0, n);
    }
  }
}
