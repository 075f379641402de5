/** The handled flag along whole runs, and exactly which rejections are reported. */
module AsyncHandled {
  import opened Wrappers
  import opened AsyncMachine
  import opened AsyncWellFormed
  import opened AsyncOwnership
  import opened AsyncSafety
  import opened AsyncOrder
  import opened AsyncReports

  /** Where a step starts the marking walk: catch, then with an onRejected, and await on a promise that has not been
      fulfilled. */
  ghost function WalkStart(w: World, a: Action): Option<PromiseId>
    requires Enabled(w, a)
  {
    match a
    case AttachCatch(p, _) => Some(p)
    case AttachThen(p, _, r) => if r.Some? then Some(p) else None
    case Await(v) => if v.PromiseRef? && w.promises[v.p].status != Fulfilled then Some(v.p) else None
    case _ => None
  }

  /** The step's walk, up the parent links through unhandled promises, comes past q. */
  ghost predicate WalksThrough(w: World, a: Action, q: PromiseId)
    requires Enabled(w, a)
  {
    WalkStart(w, a).Some? && Above(w.promises, WalkStart(w, a).value, q)
  }

  // ---------- one step ----------

  lemma {:induction false} ClimbExtends(ps: seq<Promise>, x: Promise, p: PromiseId, q: PromiseId, k: nat)
    requires p < |ps| && ParentsExist(ps) && ParentsExist(ps + [x])
    ensures Climbs(ps + [x], p, q, k) <==> Climbs(ps, p, q, k)
    ensures Climbs(ps, p, q, k) ==> q < |ps|
    decreases k
  {
    if k > 0 && ps[p].parent.Some? {
      ClimbExtends(ps, x, ps[p].parent.value, q, k - 1);
    }
  }

  /** Adding a derived promise leaves every walk from an older one as it was. */
  lemma AboveExtends(ps: seq<Promise>, x: Promise, p: PromiseId, q: PromiseId)
    requires p < |ps| && ParentsExist(ps) && ParentsExist(ps + [x])
    ensures Above(ps + [x], p, q) <==> Above(ps, p, q)
    ensures Above(ps, p, q) ==> q < |ps|
  {
    if Above(ps, p, q) {
      var k: nat :| Climbs(ps, p, q, k);
      ClimbExtends(ps, x, p, q, k);
    }
    if Above(ps + [x], p, q) {
      var k: nat :| Climbs(ps + [x], p, q, k);
      ClimbExtends(ps, x, p, q, k);
    }
  }

  ghost predicate HandledIn(w: World, q: PromiseId) {
    q < |w.promises| && w.promises[q].handled
  }

  ghost predicate SameHandled(w: World, w': World) {
    forall q :: HandledIn(w', q) <==> HandledIn(w, q)
  }

  lemma AttachMarks(w: World, a: Action, q: PromiseId)
    requires Enabled(w, a) && (a.AttachThen? || a.AttachCatch? || a.AttachFinally?)
    ensures HandledIn(Apply(w, a), q) <==> HandledIn(w, q) || WalksThrough(w, a, q)
  {
    AddedHandled(w, a.p, WalkStart(w, a).Some?, q);
    hide WellFormed, Above, Mark;
  }

  /** A derived promise added to the store, and the walk or not. */
  lemma AddedHandled(w: World, p: PromiseId, mark: bool, q: PromiseId)
    requires WellFormed(w) && p < |w.promises|
    ensures var w1 := AddPromise(w, FreshPromise(Some(p), Derived));
            ParentsExist(w1.promises)
            && (HandledIn(if mark then Mark(w1, p) else w1, q)
                <==> HandledIn(w, q) || (mark && Above(w.promises, p, q)))
  {
    var x := FreshPromise(Some(p), Derived);
    var w1 := AddPromise(w, x);
    WfAddPromise(w, x);
    AboveExtends(w.promises, x, p, q);
    if mark && q < |w1.promises| {
      MarksTheChain(w1.promises, p, q);
    }
    hide Above, WellFormed;
  }

  lemma AwaitMarks(w: World, v: Value, q: PromiseId)
    requires Enabled(w, Await(v))
    ensures HandledIn(Apply(w, Await(v)), q) <==> HandledIn(w, q) || WalksThrough(w, Await(v), q)
  {
    TopsExist(w);
    if v.PromiseRef? && w.promises[v.p].status != Fulfilled {
      if q < |w.promises| {
        MarksTheChain(w.promises, v.p, q);
      } else if Above(w.promises, v.p, q) {
        var k: nat :| Climbs(w.promises, v.p, q, k);
        ClimbExists(w.promises, v.p, q, k);
      }
    }
    hide Above, WellFormed;
  }

  lemma {:induction false} ClimbExists(ps: seq<Promise>, p: PromiseId, q: PromiseId, k: nat)
    requires p < |ps| && ParentsExist(ps) && Climbs(ps, p, q, k)
    ensures q < |ps|
    decreases k
  {
    if k > 0 {
      ClimbExists(ps, ps[p].parent.value, q, k - 1);
    }
  }

  lemma FinishMarksNone(w: World, c: Callback, v: Value, res: Option<Value>, error: string)
    requires CallbackExists(c, |w.promises|, |w.frames|) && (res.Some? ==> ValueExists(res.value, w))
    requires RunsUserFunction(c.reaction)
    ensures SameHandled(w, FinishCallback(w, c, v, res, error))
  {
  }

  lemma DeliveryMarksNone(w: World)
    requires Enabled(w, StepDelivery)
    ensures SameHandled(w, DeliveryTurn(w))
  {
    if Top(w).rest != [] {
      assert CallbackExists(Top(w).rest[0], |w.promises|, |w.frames|);
    }
    hide WellFormed;
  }

  /** A promise is handled after a step exactly if it was before or the step's walk comes past it; a new promise never
      is. */
  lemma StepMarks(w: World, a: Action, q: PromiseId)
    requires Enabled(w, a)
    ensures HandledIn(Apply(w, a), q) <==> HandledIn(w, q) || WalksThrough(w, a, q)
  {
    match a
    case AttachThen(_, _, _) => AttachMarks(w, a, q);
    case AttachCatch(_, _) => AttachMarks(w, a, q);
    case AttachFinally(_, _) => AttachMarks(w, a, q);
    case Await(v) => AwaitMarks(w, v, q);
    case StepDelivery => DeliveryMarksNone(w);
    case CallbackReturns(v) =>
      TopsExist(w);
      FinishMarksNone(Pop(w), Top(w).callback, Top(w).v, Some(v), "");
    case CallbackThrows(error) =>
      TopsExist(w);
      FinishMarksNone(Pop(w), Top(w).callback, Top(w).v, None, error);
    case _ =>
      TopsExist(w);
      assert SameHandled(w, Apply(w, a));
      hide WellFormed;
  }

  // ---------- runs ----------

  /** Some step of the run walks through q. */
  ghost predicate Walked(w: World, actions: seq<Action>, q: PromiseId)
    decreases |actions|
  {
    actions != [] && Enabled(w, actions[0]) &&
    (WalksThrough(w, actions[0], q) || Walked(Apply(w, actions[0]), actions[1..], q))
  }

  lemma {:induction false} RunMarks(w: World, actions: seq<Action>, w': World, q: PromiseId)
    ensures Run(w, actions, w') ==> (HandledIn(w', q) <==> HandledIn(w, q) || Walked(w, actions, q))
    decreases |actions|
  {
    if actions != [] && Run(w, actions, w') {
      StepMarks(w, actions[0], q);
      RunMarks(Apply(w, actions[0]), actions[1..], w', q);
    }
  }

  /** The step is the check of p for an unhandled rejection. */
  ghost predicate ChecksNow(w: World, a: Action, p: PromiseId)
    requires Enabled(w, a)
  {
    a.RunMicrotask? && w.microtasks[0] == CheckUnhandled(p)
  }

  /** The check of p comes before any walk through p. */
  ghost predicate CheckedFirst(w: World, actions: seq<Action>, p: PromiseId)
    decreases |actions|
  {
    actions != [] && Enabled(w, actions[0]) &&
    (ChecksNow(w, actions[0], p)
     || (!WalksThrough(w, actions[0], p) && CheckedFirst(Apply(w, actions[0]), actions[1..], p)))
  }

  /** A walk through p comes before its check. */
  ghost predicate WalkedFirst(w: World, actions: seq<Action>, p: PromiseId)
    decreases |actions|
  {
    actions != [] && Enabled(w, actions[0]) && !ChecksNow(w, actions[0], p) &&
    (WalksThrough(w, actions[0], p) || WalkedFirst(Apply(w, actions[0]), actions[1..], p))
  }

  lemma {:induction false} EitherIsFirst(w: World, actions: seq<Action>, p: PromiseId)
    ensures !(CheckedFirst(w, actions, p) && WalkedFirst(w, actions, p))
    ensures Walked(w, actions, p) ==> CheckedFirst(w, actions, p) || WalkedFirst(w, actions, p)
    decreases |actions|
  {
    if actions != [] && Enabled(w, actions[0]) {
      EitherIsFirst(Apply(w, actions[0]), actions[1..], p);
    }
  }

  /** The check reports what is neither handled nor reported; no other step reports p. */
  lemma StepReported(w: World, a: Action, p: PromiseId)
    requires Enabled(w, a)
    ensures var now := ChecksNow(w, a, p) && !HandledIn(w, p) && !Record(w, p).reported;
            && Count(Apply(w, a).reports, p) == Count(w.reports, p) + One(now)
            && (now ==> Record(Apply(w, a), p).reported)
  {
    if a.RunMicrotask? && w.microtasks[0].CheckUnhandled? {
      assert JobExists(w.microtasks[0], |w.promises|, |w.frames|);
      CountAppend(w.reports, w.microtasks[0].p, p);
      hide WellFormed;
    } else {
      StepReports(w, a);
    }
  }

  /** What the rest of a run adds to the reports of p. */
  lemma {:induction false} RunReported(w: World, actions: seq<Action>, w': World, p: PromiseId)
    requires Inv(w) && Accounted(w, p)
    ensures Run(w, actions, w') ==>
              Count(w'.reports, p) ==
                if Record(w, p).reported then 1 else if HandledIn(w, p) then 0 else One(CheckedFirst(w, actions, p))
    decreases |actions|
  {
    if actions != [] && Run(w, actions, w') {
      var a := actions[0];
      var w1 := Apply(w, a);
      StepInv(w, a);
      StepAccounted(w, a, p);
      StepReported(w, a, p);
      StepMarks(w, a, p);
      RunReported(w1, actions[1..], w', p);
      assert Count(w.reports, p) == One(Record(w, p).reported) && Count(w1.reports, p) == One(Record(w1, p).reported);
      hide Inv, Apply, Enabled, WalksThrough, ChecksNow, Record, HandledIn, Accounted;
    }
  }

  // ---------- main results ----------

  /** A promise is handled exactly when some step of the run walked through it. */
  lemma HandledExactly(actions: seq<Action>, w: World, q: PromiseId)
    requires Run(INIT, actions, w) && q < |w.promises|
    ensures w.promises[q].handled <==> Walked(INIT, actions, q)
  {
    RunMarks(INIT, actions, w, q);
  }

  /** A promise is reported exactly when its check came before any walk through it; and a rejection that came through
      reject_promise is, once the system is idle, unless a walk came first. Whether a callback received the rejection
      does not enter into it. */
  lemma ReportedExactly(actions: seq<Action>, w: World, p: PromiseId)
    requires Run(INIT, actions, w) && p < |w.promises|
    ensures Count(w.reports, p) == One(CheckedFirst(INIT, actions, p))
    ensures w.microtasks == [] && w.control == [] && Watched(w.promises[p]) ==>
              (Count(w.reports, p) == 1 <==> !WalkedFirst(INIT, actions, p))
  {
    assert Reachable(w);
    RunReported(INIT, actions, w, p);
    HandledExactly(actions, w, p);
    EitherIsFirst(INIT, actions, p);
    ReportsExactly(w, p);
  }
}
