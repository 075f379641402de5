/** Unhandled rejections: which promises the marking walk reaches, and which rejections are reported. */
module AsyncReports {
  import opened Wrappers
  import opened AsyncMachine
  import opened AsyncWellFormed
  import opened AsyncOwnership
  import opened AsyncSafety
  import opened AsyncOrder

  // ---------- the marking walk ----------

  /** q is k parent links above p, and everything from p up to and including q is unhandled. */
  ghost predicate Climbs(ps: seq<Promise>, p: PromiseId, q: PromiseId, k: nat)
    requires p < |ps| && ParentsExist(ps)
    decreases k
  {
    !ps[p].handled &&
    if k == 0 then p == q else ps[p].parent.Some? && Climbs(ps, ps[p].parent.value, q, k - 1)
  }

  lemma {:induction false} UnmarkClimb(ps: seq<Promise>, p: PromiseId, x: PromiseId, q: PromiseId, k: nat)
    requires p < |ps| && x < |ps| && ParentsExist(ps)
    requires Climbs(ps[p := ps[p].(handled := true)], x, q, k)
    ensures Climbs(ps, x, q, k)
    decreases k
  {
    if k > 0 {
      UnmarkClimb(ps, p, ps[x].parent.value, q, k - 1);
    }
  }

  /** A climb either avoids p, or can be restarted at p. */
  lemma {:induction false} AvoidOrRestart(ps: seq<Promise>, p: PromiseId, x: PromiseId, q: PromiseId, k: nat)
    returns (j: nat)
    requires p < |ps| && x < |ps| && ParentsExist(ps) && q != p && Climbs(ps, x, q, k)
    ensures j <= k && (Climbs(ps[p := ps[p].(handled := true)], x, q, k) || Climbs(ps, p, q, j))
    decreases k
  {
    j := k;
    if x != p && k > 0 {
      j := AvoidOrRestart(ps, p, ps[x].parent.value, q, k - 1);
    }
  }

  /** Even round a cycle of parents, a climb from p to another promise needs p only once. */
  lemma {:induction false} MarkClimb(ps: seq<Promise>, p: PromiseId, q: PromiseId, k: nat) returns (j: nat)
    requires p < |ps| && ParentsExist(ps) && q != p && Climbs(ps, p, q, k)
    ensures ps[p].parent.Some? && Climbs(ps[p := ps[p].(handled := true)], ps[p].parent.value, q, j)
    decreases k
  {
    var r := ps[p].parent.value;
    j := AvoidOrRestart(ps, p, r, q, k - 1);
    if Climbs(ps[p := ps[p].(handled := true)], r, q, k - 1) {
      j := k - 1;
    } else {
      j := MarkClimb(ps, p, q, j);
    }
  }

  ghost predicate Above(ps: seq<Promise>, p: PromiseId, q: PromiseId)
    requires p < |ps| && ParentsExist(ps)
  {
    exists k: nat :: Climbs(ps, p, q, k)
  }

  lemma AboveSplits(ps: seq<Promise>, p: PromiseId, q: PromiseId)
    requires p < |ps| && ParentsExist(ps) && q != p && !ps[p].handled && ps[p].parent.Some?
    ensures Above(ps, p, q) <==> Above(ps[p := ps[p].(handled := true)], ps[p].parent.value, q)
  {
    var marked, r := ps[p := ps[p].(handled := true)], ps[p].parent.value;
    if Above(ps, p, q) {
      var k: nat :| Climbs(ps, p, q, k);
      var j := MarkClimb(ps, p, q, k);
      assert Climbs(marked, r, q, j);
    }
    if Above(marked, r, q) {
      var k: nat :| Climbs(marked, r, q, k);
      UnmarkClimb(ps, p, r, q, k);
      assert Climbs(ps, p, q, k + 1);
    }
  }

  /** The walk stops on every parent graph, and marks exactly p and its ancestors up to the first handled one. */
  lemma {:induction false} MarksTheChain(ps: seq<Promise>, p: PromiseId, q: PromiseId)
    requires p < |ps| && q < |ps| && ParentsExist(ps)
    ensures MarkHandled(ps, p)[q].handled <==> ps[q].handled || Above(ps, p, q)
    decreases Unhandled(ps)
  {
    if !ps[p].handled {
      var marked := ps[p := ps[p].(handled := true)];
      UnhandledDrops(ps, p);
      assert Climbs(ps, p, p, 0);
      if ps[p].parent.Some? {
        MarksTheChain(marked, ps[p].parent.value, q);
        if q != p {
          AboveSplits(ps, p, q);
        }
      } else if Above(ps, p, q) {
        var k: nat :| Climbs(ps, p, q, k);
        assert k == 0;
      }
    }
  }

  // ---------- the reports ----------

  /** Deliveries under way or queued that will schedule a check of p. */
  ghost function QueueDeliveries(q: seq<Job>, p: PromiseId): nat {
    if q == [] then 0 else One(q[0].DeliverRejection? && q[0].p == p) + QueueDeliveries(q[1..], p)
  }

  ghost function ControlDeliveries(c: seq<Activation>, p: PromiseId): nat {
    if c != [] && c[0].Delivering? then One(c[0].check == Some(p)) else 0
  }

  ghost function Checks(q: seq<Job>, p: PromiseId): nat {
    if q == [] then 0 else One(q[0] == CheckUnhandled(p)) + Checks(q[1..], p)
  }

  lemma {:induction false} ChecksAppend(q: seq<Job>, j: Job, p: PromiseId)
    ensures Checks(q + [j], p) == Checks(q, p) + One(j == CheckUnhandled(p))
    ensures QueueDeliveries(q + [j], p) == QueueDeliveries(q, p) + One(j.DeliverRejection? && j.p == p)
  {
    if q != [] {
      ChecksAppend(q[1..], j, p);
      assert (q + [j])[1..] == q[1..] + [j];
    }
  }

  ghost predicate Watched(x: Promise) {
    x.status == Rejected && x.origin != Derived
  }

  /** A rejection that came through reject_promise is delivered, then checked once; no other promise is checked. */
  ghost predicate Accounted(w: World, p: PromiseId) {
    var x := Record(w, p);
    var deliveries := QueueDeliveries(w.microtasks, p) + ControlDeliveries(w.control, p);
    var checks := Checks(w.microtasks, p);
    && Count(w.reports, p) == One(x.reported)
    && if Watched(x) then
         && deliveries + One(x.checkScheduled) == 1
         && checks + One(x.reported) <= One(x.checkScheduled)
         && (x.checkScheduled ==> checks == 1 || x.handled || x.reported)
       else deliveries == checks == 0 && !x.checkScheduled && !x.reported
  }

  /** A change that neither queues nor removes a delivery or a check, and settles no watched promise. */
  ghost predicate Unwatched(w: World, w': World, p: PromiseId) {
    var x, y := Record(w, p), Record(w', p);
    && w'.reports == w.reports
    && (Watched(x) <==> Watched(y)) && y.checkScheduled == x.checkScheduled && y.reported == x.reported
    && (x.handled ==> y.handled)
    && QueueDeliveries(w'.microtasks, p) == QueueDeliveries(w.microtasks, p)
    && ControlDeliveries(w'.control, p) == ControlDeliveries(w.control, p)
    && Checks(w'.microtasks, p) == Checks(w.microtasks, p)
  }

  lemma UnwatchedKeeps(w: World, w': World, p: PromiseId)
    requires Unwatched(w, w', p) && Accounted(w, p)
    ensures Accounted(w', p)
  {
  }

  lemma EnqueueUnwatched(w: World, j: Job, p: PromiseId)
    requires !j.DeliverRejection? && !j.CheckUnhandled?
    ensures Unwatched(w, Enqueue(w, j), p)
  {
    ChecksAppend(w.microtasks, j, p);
  }

  lemma ReactUnwatched(w: World, q: PromiseId, on: Reaction, onr: Reaction, p: PromiseId)
    requires q < |w.promises|
    ensures Unwatched(w, React(w, q, on, onr), p)
  {
    var x := w.promises[q];
    ChecksAppend(w.microtasks, Deliver([Callback(q, x.attached, on)], x.result), p);
    ChecksAppend(w.microtasks, Deliver([Callback(q, x.attached, onr)], x.result), p);
  }

  lemma SettleNextUnwatched(w: World, n: PromiseId, v: Value, p: PromiseId)
    requires n < |w.promises| && Balance(w, OfPromise(n)) == -1
    ensures Unwatched(w, ResolveNext(w, n, v), p) && Unwatched(w, RejectNext(w, n, v), p)
  {
    HolderFindsPending(w, n);
    ChecksAppend(w.microtasks, Deliver(w.promises[n].thenCallbacks, v), p);
    ChecksAppend(w.microtasks, Deliver(w.promises[n].catchCallbacks, v), p);
  }

  lemma SettleGuardedAccounted(w: World, q: PromiseId, v: Value, p: PromiseId)
    requires q < |w.promises| && w.promises[q].origin != Derived && Accounted(w, p)
    ensures Accounted(FulfillPromise(w, q, v), p) && Accounted(RejectPromise(w, q, v), p)
  {
    ChecksAppend(w.microtasks, Deliver(w.promises[q].thenCallbacks, v), p);
    ChecksAppend(w.microtasks, DeliverRejection(q, w.promises[q].catchCallbacks, v), p);
  }

  lemma FinishCallbackUnwatched(w: World, c: Callback, v: Value, res: Option<Value>, error: string, p: PromiseId)
    requires CallbackExists(c, |w.promises|, |w.frames|) && (res.Some? ==> ValueExists(res.value, w))
    requires RunsUserFunction(c.reaction) && Balance(w, TargetOf(c.reaction)) == -1
    ensures Unwatched(w, FinishCallback(w, c, v, res, error), p)
  {
    var n := c.reaction.next;
    hide Balance;
    if c.reaction.RunFinally? {
      SettleNextUnwatched(w, n, v, p);
    } else if res.None? {
      SettleNextUnwatched(w, n, Text(error), p);
    } else if !res.value.PromiseRef? {
      SettleNextUnwatched(w, n, res.value, p);
    } else {
      SettleNextUnwatched(w, n, w.promises[res.value.p].result, p);
      ReactUnwatched(w, res.value.p, ResolveNextLater(n), RejectNextLater(n), p);
    }
  }

  lemma StartCallbackUnwatched(w: World, c: Callback, v: Value, p: PromiseId)
    requires CallbackExists(c, |w.promises|, |w.frames|) && w.control != []
    requires c.reaction.WakeFrame? || Balance(w, TargetOf(c.reaction)) == -1
    ensures Unwatched(w, StartCallback(w, c, v), p)
  {
    hide Balance;
    if c.reaction.WakeFrame? {
      EnqueueUnwatched(StampFrame(w, c.reaction.frame, Stamped(c.reaction.threw, v)), Resume(c.reaction.frame), p);
    } else {
      SettleNextUnwatched(w, c.reaction.next, v, p);
    }
  }

  lemma DeliveryAccounted(w: World, p: PromiseId)
    requires Inv(w) && Enabled(w, StepDelivery) && Accounted(w, p)
    ensures Accounted(DeliveryTurn(w), p)
  {
    DeliveryAtBottom(w);
    if Top(w).rest == [] {
      EndAccounted(w, p);
    } else {
      var c := Top(w).rest[0];
      assert CallbackExists(c, |w.promises|, |w.frames|);
      OwnedBalance(w, TargetOf(c.reaction));
      TakeFirstBalance(w, TargetOf(c.reaction));
      assert Unwatched(w, TakeFirst(w), p);
      hide Balance, Owned, FramesOk, WellFormed, AllPaired, Accounted;
      UnwatchedKeeps(w, TakeFirst(w), p);
      StartCallbackUnwatched(TakeFirst(w), c, Top(w).v, p);
      UnwatchedKeeps(TakeFirst(w), DeliveryTurn(w), p);
    }
  }

  lemma EndAccounted(w: World, p: PromiseId)
    requires WellFormed(w) && |w.control| == 1 && Top(w).Delivering? && Top(w).rest == [] && Accounted(w, p)
    ensures Accounted(DeliveryTurn(w), p)
  {
    if Top(w).check.Some? {
      ChecksAppend(w.microtasks, CheckUnhandled(Top(w).check.value), p);
    }
  }

  lemma MicrotaskAccounted(w: World, p: PromiseId)
    requires WellFormed(w) && Enabled(w, RunMicrotask) && Accounted(w, p)
    ensures Accounted(Apply(w, RunMicrotask), p)
  {
    var j := w.microtasks[0];
    assert JobExists(j, |w.promises|, |w.frames|);
    var w1 := w.(microtasks := w.microtasks[1..]);
    if j.CheckUnhandled? {
      CountAppend(w.reports, j.p, p);
    }
  }

  lemma AttachUnwatched(w: World, q: PromiseId, mark: bool, on: Reaction, onr: Reaction, p: PromiseId)
    requires WellFormed(w) && q < |w.promises|
    ensures Unwatched(w, Attached(w, q, mark, on, onr), p)
  {
    var x := FreshPromise(Some(q), Derived);
    var w1 := AddPromise(w, x);
    WfAddPromise(w, x);
    assert Unwatched(w, w1, p);
    ReactUnwatched(if mark then Mark(w1, q) else w1, q, on, onr, p);
  }

  lemma AttachAccounted(w: World, a: Action, p: PromiseId)
    requires Enabled(w, a) && (a.AttachThen? || a.AttachCatch? || a.AttachFinally?) && Accounted(w, p)
    ensures Accounted(Apply(w, a), p)
  {
    var n := |w.promises|;
    hide Unwatched, Accounted;
    match a {
      case AttachThen(q, f, r) =>
        AttachUnwatched(w, q, r.Some?, RunThen(n, f, r, false),
          if w.promises[q].status == Rejected && r.None? then RejectNextLater(n) else RunThen(n, f, r, true), p);
      case AttachCatch(q, f) => AttachUnwatched(w, q, true, ResolveNextLater(n), RunCatch(n, f), p);
      case AttachFinally(q, f) => AttachUnwatched(w, q, false, RunFinally(n, f, false), RunFinally(n, f, true), p);
    }
    UnwatchedKeeps(w, Apply(w, a), p);
  }

  lemma RegisterUnwatched(w: World, f: FrameId, v: Value, p: PromiseId)
    requires f < |w.frames| && ValueExists(v, w) && ParentsExist(w.promises)
    ensures Unwatched(w, Register(w, f, v), p)
  {
    if !v.PromiseRef? {
      EnqueueUnwatched(AddPromise(w, FreshPromise(None, Constructed).(status := Fulfilled, result := v)), Resume(f), p);
    } else {
      EnqueueUnwatched(w, Resume(f), p);
      EnqueueUnwatched(Mark(w, v.p), Resume(f), p);
      ReactUnwatched(Mark(w, v.p), v.p, WakeFrame(f, false), WakeFrame(f, true), p);
    }
  }

  lemma LeaveUnwatched(w: World, f: FrameId, a: Awaited, p: PromiseId)
    requires f < |w.frames| && w.control != [] && Top(w).AsyncBody?
    ensures Unwatched(w, Pop(Suspend(w, f, a)), p)
  {
  }

  lemma ReturnUnwatched(w: World, p: PromiseId)
    requires w.control != [] && Top(w).AsyncBody?
    ensures Unwatched(w, PopFrame(Pop(w)), p)
  {
  }

  lemma AwaitAccounted(w: World, f: FrameId, v: Value, p: PromiseId)
    requires f < |w.frames| && ValueExists(v, w) && ParentsExist(w.promises) && Accounted(w, p)
    requires w.control != [] && Top(w).AsyncBody?
    ensures AwaitIn(w, f, v).control == w.control && Accounted(Pop(AwaitIn(w, f, v)), p)
  {
    RegisterUnwatched(w, f, v, p);
    RegisterControl(w, f, v);
    hide Accounted, Register, Unwatched;
    UnwatchedKeeps(w, Register(w, f, v), p);
    LeaveUnwatched(Register(w, f, v), f, AwaitedBy(w, v), p);
    UnwatchedKeeps(Register(w, f, v), Pop(AwaitIn(w, f, v)), p);
  }

  lemma FinishAccounted(w: World, q: PromiseId, fulfil: bool, v: Value, p: PromiseId)
    requires q < |w.promises| && w.promises[q].origin != Derived && Accounted(w, p)
    requires w.control != [] && Top(w).AsyncBody? && Top(w).f < |w.frames|
    ensures var w1 := if fulfil then FulfillPromise(w, q, v) else RejectPromise(w, q, v);
            w1.control == w.control && Accounted(PopFrame(Pop(w1)), p)
  {
    hide Accounted, FulfillPromise, RejectPromise, Unwatched;
    SettleGuardedAccounted(w, q, v, p);
    SettleControl(w, q, v);
    if fulfil {
      ReturnUnwatched(FulfillPromise(w, q, v), p);
      UnwatchedKeeps(FulfillPromise(w, q, v), PopFrame(Pop(FulfillPromise(w, q, v))), p);
    } else {
      ReturnUnwatched(RejectPromise(w, q, v), p);
      UnwatchedKeeps(RejectPromise(w, q, v), PopFrame(Pop(RejectPromise(w, q, v))), p);
    }
  }

  lemma CallbackAccounted(w: World, a: Action, p: PromiseId)
    requires Inv(w) && Enabled(w, a) && (a.CallbackReturns? || a.CallbackThrows?) && Accounted(w, p)
    ensures Accounted(Apply(w, a), p)
  {
    var c := Top(w).callback;
    OwnedBalance(w, TargetOf(c.reaction));
    PopBalance(w, TargetOf(c.reaction));
    TopsExist(w);
    assert Unwatched(w, Pop(w), p);
    hide Balance, Owned, FramesOk, WellFormed, AllPaired, Accounted, Unwatched;
    var res, error := if a.CallbackReturns? then Some(a.v) else None, if a.CallbackReturns? then "" else a.error;
    UnwatchedKeeps(w, Pop(w), p);
    FinishCallbackUnwatched(Pop(w), c, Top(w).v, res, error, p);
    UnwatchedKeeps(Pop(w), Apply(w, a), p);
  }

  lemma StepAccounted(w: World, a: Action, p: PromiseId)
    requires Inv(w) && Enabled(w, a) && Accounted(w, p)
    ensures Accounted(Apply(w, a), p)
  {
    TopsExist(w);
    match a
    case RunMicrotask => MicrotaskAccounted(w, p);
    case StepDelivery => DeliveryAccounted(w, p);
    case AttachThen(_, _, _) => AttachAccounted(w, a, p);
    case AttachCatch(_, _) => AttachAccounted(w, a, p);
    case AttachFinally(_, _) => AttachAccounted(w, a, p);
    case Await(v) => AwaitAccounted(w, w.callStack[|w.callStack| - 1], v, p);
    case FinishAsync(fulfil, v) =>
      OfCallPromise(w, Top(w).f);
      FinishAccounted(w, w.frames[Top(w).f].pendingPromise.value, fulfil, v, p);
    case CallbackReturns(_) => CallbackAccounted(w, a, p);
    case CallbackThrows(_) => CallbackAccounted(w, a, p);
    case SettleConstructed(q, _, v) => SettleGuardedAccounted(w, q, v, p);
    case _ =>
  }

  lemma {:induction false} RunAccounted(w: World, actions: seq<Action>, w': World, p: PromiseId)
    requires Inv(w) && Accounted(w, p)
    ensures Run(w, actions, w') ==> Accounted(w', p)
    decreases |actions|
  {
    if actions != [] && Run(w, actions, w') {
      StepInv(w, actions[0]);
      StepAccounted(w, actions[0], p);
      RunAccounted(Apply(w, actions[0]), actions[1..], w', p);
    }
  }

  // ---------- main results ----------

  /** No promise is reported twice; only a rejection that came through reject_promise can be reported; and once the
      system is idle every such rejection has been reported or is handled. A derived promise is never reported,
      handled or not. */
  lemma ReportsExactly(w: World, p: PromiseId)
    requires Reachable(w) && p < |w.promises|
    ensures Count(w.reports, p) <= 1
    ensures Count(w.reports, p) == 1 ==> Watched(w.promises[p])
    ensures w.microtasks == [] && w.control == [] && Watched(w.promises[p]) && !w.promises[p].handled ==>
              Count(w.reports, p) == 1
  {
    var actions :| Run(INIT, actions, w);
    RunAccounted(INIT, actions, w, p);
  }

  lemma StepHandled(w: World, a: Action, p: PromiseId)
    requires Inv(w) && Enabled(w, a) && p < |w.promises| && w.promises[p].handled
    ensures p < |Apply(w, a).promises| && Apply(w, a).promises[p].handled
    ensures Count(Apply(w, a).reports, p) == Count(w.reports, p)
  {
    StepInv(w, a);
    assert Advances(w, Apply(w, a), p);
    if a.RunMicrotask? && w.microtasks[0].CheckUnhandled? {
      CountAppend(w.reports, w.microtasks[0].p, p);
    } else {
      StepReports(w, a);
    }
  }

  /** Only the check microtask reports. */
  lemma StepReports(w: World, a: Action)
    requires Enabled(w, a) && (a.RunMicrotask? ==> !w.microtasks[0].CheckUnhandled?)
    ensures Apply(w, a).reports == w.reports
  {
  }

  /** A rejection handled before its check microtask runs is never reported. */
  lemma {:induction false} HandledIsNotReported(w: World, actions: seq<Action>, w': World, p: PromiseId)
    requires Reachable(w) && Run(w, actions, w') && p < |w.promises| && w.promises[p].handled
    ensures Count(w'.reports, p) == Count(w.reports, p)
  {
    ReachableInv(w);
    RunHandled(w, actions, w', p);
  }

  lemma {:induction false} RunHandled(w: World, actions: seq<Action>, w': World, p: PromiseId)
    requires Inv(w)
    ensures Run(w, actions, w') && p < |w.promises| && w.promises[p].handled ==>
              Count(w'.reports, p) == Count(w.reports, p)
    decreases |actions|
  {
    if actions != [] && Run(w, actions, w') && p < |w.promises| && w.promises[p].handled {
      StepInv(w, actions[0]);
      StepHandled(w, actions[0], p);
      RunHandled(Apply(w, actions[0]), actions[1..], w', p);
    }
  }
}
