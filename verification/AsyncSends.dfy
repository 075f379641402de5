/** Nothing is lost: the converse of the bounds in AsyncValues. What a step is said to settle, attach or send out really
    is, and what was listed or told before stays so. */
module AsyncSends {
  import opened Wrappers
  import opened AsyncMachine
  import opened AsyncWellFormed
  import opened AsyncOwnership
  import opened AsyncSafety
  import opened AsyncOrder
  import opened AsyncValues

  /** A queued microtask will run c with v. */
  ghost predicate Sent(w: World, c: Callback, v: Value) {
    exists j <- w.microtasks :: InJob(j, c, v)
  }

  /** All that ch names has come about in w', and every other listing stands. */
  ghost predicate Delivers(w: World, w': World, ch: Change) {
    && (forall p, s, c | Listed(w, p, s, c) && !(ch.Settling? && ch.p == p) :: Listed(w', p, s, c))
    && (ch.Settling? ==> forall c | Listed(w, ch.p, ch.s, c) :: Sent(w', c, ch.v))
    && (ch.Attaching? ==>
          && ch.p < |w.promises|
          && var x := w.promises[ch.p];
             var c0, c1 := Callback(ch.p, x.attached, ch.on), Callback(ch.p, x.attached, ch.onr);
             match x.status
             case Pending => Listed(w', ch.p, Fulfilled, c0) && Listed(w', ch.p, Rejected, c1)
             case Fulfilled => Sent(w', c0, x.result)
             case Rejected => Sent(w', c1, x.result))
  }

  /** The promises of w stand in w' with the same state, result, lists and attachments. */
  ghost predicate SameHeap(w: World, w': World) {
    && |w.promises| <= |w'.promises|
    && forall p | 0 <= p < |w.promises| ::
         && SameOutcome(w.promises[p], w'.promises[p]) && w'.promises[p].attached == w.promises[p].attached
         && w'.promises[p].thenCallbacks == w.promises[p].thenCallbacks
         && w'.promises[p].catchCallbacks == w.promises[p].catchCallbacks
  }

  ghost predicate QueueKept(w: World, w': World) {
    forall j <- w.microtasks :: j in w'.microtasks
  }

  lemma HeapThen(w: World, w1: World, w2: World, ch: Change)
    requires SameHeap(w, w1) && Delivers(w1, w2, ch) && (ch.Attaching? ==> ch.p < |w.promises|)
    ensures Delivers(w, w2, ch)
  {
    hide Sent;
    assert forall p, s, c :: Listed(w, p, s, c) ==> Listed(w1, p, s, c);
  }

  lemma ThenHeap(w: World, w1: World, w2: World, ch: Change)
    requires Delivers(w, w1, ch) && SameHeap(w1, w2) && QueueKept(w1, w2)
    ensures Delivers(w, w2, ch)
  {
    assert forall p, s, c :: Listed(w1, p, s, c) ==> Listed(w2, p, s, c);
    assert forall c, v :: Sent(w1, c, v) ==> Sent(w2, c, v);
    hide Sent, Listed;
  }

  lemma SettleDelivers(w: World, p: PromiseId, s: Status, v: Value, job: Job)
    requires p < |w.promises| && w.promises[p].status == Pending && s != Pending
    requires s == Fulfilled ==> job == Deliver(w.promises[p].thenCallbacks, v)
    requires s == Rejected ==>
               (job == Deliver(w.promises[p].catchCallbacks, v)
                || job == DeliverRejection(p, w.promises[p].catchCallbacks, v))
    ensures Delivers(w, Settle(w, p, s, v, job), Settling(p, s, v))
  {
    var w' := Settle(w, p, s, v, job);
    assert job in w'.microtasks;
    forall c | Listed(w, p, s, c) ensures Sent(w', c, v) {
      assert InJob(job, c, v);
    }
  }

  lemma ReactDelivers(w: World, p: PromiseId, on: Reaction, onr: Reaction)
    requires p < |w.promises|
    ensures Delivers(w, React(w, p, on, onr), Attaching(p, on, onr))
  {
    var x, w' := w.promises[p], React(w, p, on, onr);
    if x.status != Pending {
      var c := Callback(p, x.attached, if x.status == Fulfilled then on else onr);
      assert Deliver([c], x.result) in w'.microtasks;
      assert InJob(Deliver([c], x.result), c, x.result);
    }
  }

  lemma NextDelivers(w: World, n: PromiseId, v: Value)
    requires n < |w.promises| && w.promises[n].status == Pending
    ensures Delivers(w, ResolveNext(w, n, v), Settling(n, Fulfilled, v))
    ensures Delivers(w, RejectNext(w, n, v), Settling(n, Rejected, v))
  {
    SettleDelivers(w, n, Fulfilled, v, Deliver(w.promises[n].thenCallbacks, v));
    SettleDelivers(w, n, Rejected, v, Deliver(w.promises[n].catchCallbacks, v));
  }

  lemma GuardedDelivers(w: World, p: PromiseId, v: Value)
    requires p < |w.promises|
    ensures Delivers(w, FulfillPromise(w, p, v), Guarded(w, p, true, v))
    ensures Delivers(w, RejectPromise(w, p, v), Guarded(w, p, false, v))
  {
    if w.promises[p].status == Pending {
      SettleDelivers(w, p, Fulfilled, v, Deliver(w.promises[p].thenCallbacks, v));
      SettleDelivers(w, p, Rejected, v, DeliverRejection(p, w.promises[p].catchCallbacks, v));
    }
  }

  lemma AttachDelivers(w: World, a: Action)
    requires Enabled(w, a) && (a.AttachThen? || a.AttachCatch? || a.AttachFinally?)
    ensures Delivers(w, Apply(w, a), ChangeOf(w, a))
  {
    var ch := ChangeOf(w, a);
    var mark := a.AttachCatch? || (a.AttachThen? && a.r.Some?);
    var w1 := AddPromise(w, FreshPromise(Some(ch.p), Derived));
    WfAddPromise(w, FreshPromise(Some(ch.p), Derived));
    var w2 := if mark then Mark(w1, ch.p) else w1;
    ReactDelivers(w2, ch.p, ch.on, ch.onr);
    assert Apply(w, a) == React(w2, ch.p, ch.on, ch.onr);
    hide Delivers, React, Mark, WellFormed;
    HeapThen(w, w2, Apply(w, a), ch);
  }

  lemma AwaitDelivers(w: World, v: Value)
    requires Enabled(w, Await(v))
    ensures Delivers(w, Apply(w, Await(v)), ChangeOf(w, Await(v)))
  {
    TopsExist(w);
    var f := w.callStack[|w.callStack| - 1];
    var ch, w1 := ChangeOf(w, Await(v)), Register(w, f, v);
    if ch.Attaching? {
      ReactDelivers(Mark(w, v.p), v.p, ch.on, ch.onr);
      HeapThen(w, Mark(w, v.p), w1, ch);
    }
    hide WellFormed;
    assert Delivers(w, w1, ch);
    hide Register, Delivers;
    ThenHeap(w, w1, Apply(w, Await(v)), ch);
  }

  lemma FinishDelivers(w: World, fulfil: bool, v: Value)
    requires Enabled(w, FinishAsync(fulfil, v))
    ensures Delivers(w, Apply(w, FinishAsync(fulfil, v)), ChangeOf(w, FinishAsync(fulfil, v)))
  {
    TopsExist(w);
    var p := w.frames[Top(w).f].pendingPromise.value;
    GuardedDelivers(w, p, v);
    hide Delivers, FulfillPromise, RejectPromise, WellFormed;
    var w1 := if fulfil then FulfillPromise(w, p, v) else RejectPromise(w, p, v);
    SettleControl(w, p, v);
    ThenHeap(w, w1, PopFrame(Pop(w1)), Guarded(w, p, fulfil, v));
  }

  lemma FinishCallbackDelivers(w: World, c: Callback, v: Value, res: Option<Value>, error: string)
    requires CallbackExists(c, |w.promises|, |w.frames|) && (res.Some? ==> ValueExists(res.value, w))
    requires RunsUserFunction(c.reaction) && w.promises[c.reaction.next].status == Pending
    ensures Delivers(w, FinishCallback(w, c, v, res, error), FinishChange(w, c, v, res, error))
  {
    var n := c.reaction.next;
    hide Delivers;
    if c.reaction.RunFinally? {
      NextDelivers(w, n, v);
    } else if res.None? {
      NextDelivers(w, n, Text(error));
    } else if !res.value.PromiseRef? {
      NextDelivers(w, n, res.value);
    } else if w.promises[res.value.p].status == Pending {
      var w1 := React(w, res.value.p, ResolveNextLater(n), RejectNextLater(n));
      ReactDelivers(w, res.value.p, ResolveNextLater(n), RejectNextLater(n));
      ThenHeap(w, w1, FinishCallback(w, c, v, res, error), FinishChange(w, c, v, res, error));
    } else {
      NextDelivers(w, n, w.promises[res.value.p].result);
    }
  }

  lemma CallbackDelivers(w: World, a: Action)
    requires Inv(w) && Enabled(w, a) && (a.CallbackReturns? || a.CallbackThrows?)
    ensures Delivers(w, Apply(w, a), ChangeOf(w, a))
  {
    ReadyToFinish(w, a);
    var c := Top(w).callback;
    HolderFindsPending(Pop(w), c.reaction.next);
    if a.CallbackReturns? {
      FinishCallbackDelivers(Pop(w), c, Top(w).v, Some(a.v), "");
    } else {
      FinishCallbackDelivers(Pop(w), c, Top(w).v, None, a.error);
    }
    hide Inv, Delivers, Balance, AllPaired, FinishCallback;
    HeapThen(w, Pop(w), Apply(w, a), ChangeOf(w, a));
  }

  lemma DeliveryDelivers(w: World)
    requires Inv(w) && Enabled(w, StepDelivery)
    ensures Delivers(w, DeliveryTurn(w), ChangeOf(w, StepDelivery))
  {
    if Top(w).rest != [] {
      var c, v := Top(w).rest[0], Top(w).v;
      assert CallbackExists(c, |w.promises|, |w.frames|);
      var w1 := TakeFirst(w);
      assert SameHeap(w, w1);
      if StartChange(c, v).Settling? {
        DeliveryFindsPending(w);
        NextDelivers(w1, c.reaction.next, v);
        hide Delivers, SameHeap, Inv, Balance;
        HeapThen(w, w1, DeliveryTurn(w), StartChange(c, v));
      }
    }
  }

  /** Each step delivers all that ChangeOf names: a settled promise sends out every reaction of its side, an attached
      pair is listed or its matching half sent out, and no other listing is touched. */
  lemma StepDelivers(w: World, a: Action)
    requires Inv(w) && Enabled(w, a)
    ensures Delivers(w, Apply(w, a), ChangeOf(w, a))
  {
    match a
    case StepDelivery => DeliveryDelivers(w);
    case Await(v) => AwaitDelivers(w, v);
    case FinishAsync(fulfil, v) => FinishDelivers(w, fulfil, v);
    case SettleConstructed(p, fulfil, v) => GuardedDelivers(w, p, v);
    case CallbackReturns(_) => CallbackDelivers(w, a);
    case CallbackThrows(_) => CallbackDelivers(w, a);
    case AttachThen(_, _, _) => AttachDelivers(w, a);
    case AttachCatch(_, _) => AttachDelivers(w, a);
    case AttachFinally(_, _) => AttachDelivers(w, a);
    case RunMicrotask => RunDelivers(w);
    case _ => assert SameHeap(w, Apply(w, a)); hide WellFormed;
  }

  lemma RunDelivers(w: World)
    requires Enabled(w, RunMicrotask)
    ensures Delivers(w, Apply(w, RunMicrotask), Nothing)
  {
    assert JobExists(w.microtasks[0], |w.promises|, |w.frames|);
    assert SameHeap(w, Apply(w, RunMicrotask));
    hide WellFormed;
  }

  /** What the step runs or finishes. */
  ghost predicate InHand(w: World, a: Action, c: Callback, v: Value)
    requires Enabled(w, a)
  {
    match a
    case StepDelivery => Top(w).rest != [] && c == Top(w).rest[0] && v == Top(w).v
    case CallbackReturns(_) => c == Top(w).callback && v == Top(w).v
    case CallbackThrows(_) => c == Top(w).callback && v == Top(w).v
    case _ => false
  }

  /** The queue only grows and nothing with callbacks leaves the native stack. */
  ghost predicate CallbacksKept(w: World, w': World) {
    QueueKept(w, w') && forall a <- w.control :: HoldsNone(a) || a in w'.control
  }

  lemma KeptIsTold(w: World, w': World, c: Callback, v: Value)
    requires CallbacksKept(w, w') && Told(w, c, v)
    ensures Told(w', c, v)
  {
  }

  lemma FinishKeepsCallbacks(w: World, c: Callback, v: Value, res: Option<Value>, error: string)
    requires CallbackExists(c, |w.promises|, |w.frames|) && (res.Some? ==> ValueExists(res.value, w))
    requires RunsUserFunction(c.reaction)
    ensures CallbacksKept(w, FinishCallback(w, c, v, res, error))
  {
  }

  lemma PlainKeepsQueue(w: World, a: Action)
    requires Enabled(w, a) && !a.RunMicrotask? && !a.StepDelivery? && !a.CallbackReturns? && !a.CallbackThrows?
    ensures QueueKept(w, Apply(w, a))
  {
    TopsExist(w);
    hide WellFormed;
  }

  lemma PlainKeepsCallbacks(w: World, a: Action)
    requires Enabled(w, a) && !a.RunMicrotask? && !a.StepDelivery? && !a.CallbackReturns? && !a.CallbackThrows?
    ensures CallbacksKept(w, Apply(w, a))
  {
    TopsExist(w);
    PlainKeepsQueue(w, a);
    hide WellFormed, QueueKept;
    forall b <- w.control ensures HoldsNone(b) || b in Apply(w, a).control {
      var i :| 0 <= i < |w.control| && w.control[i] == b;
      if i < |Apply(w, a).control| {
        assert Apply(w, a).control[i] == b || HoldsNone(b);
      }
    }
  }

  lemma StartKeepsCallbacks(w: World, c: Callback, v: Value)
    requires CallbackExists(c, |w.promises|, |w.frames|)
    ensures CallbacksKept(w, StartCallback(w, c, v))
  {
    var w' := StartCallback(w, c, v);
    forall b <- w.control ensures b in w'.control {
      var i :| 0 <= i < |w.control| && w.control[i] == b;
      assert w'.control[i] == b;
    }
  }

  lemma DeliveryKeepsTold(w: World, c: Callback, v: Value)
    requires Inv(w) && Enabled(w, StepDelivery) && Told(w, c, v)
    ensures Told(Apply(w, StepDelivery), c, v) || InHand(w, StepDelivery, c, v)
  {
    DeliveryAtBottom(w);
    if Top(w).rest == [] {
      assert QueueKept(w, Apply(w, StepDelivery));
    } else if !InHand(w, StepDelivery, c, v) {
      var w1 := TakeFirst(w);
      assert CallbackExists(Top(w).rest[0], |w.promises|, |w.frames|);
      assert w1.control == [Top(w).(rest := Top(w).rest[1..])] && w1.microtasks == w.microtasks;
      if InActivation(w.control[0], c, v) {
        assert InActivation(w1.control[0], c, v);
      }
      assert Told(w1, c, v);
      hide Told, Inv, TakeFirst;
      StartKeepsCallbacks(w1, Top(w).rest[0], Top(w).v);
      KeptIsTold(w1, Apply(w, StepDelivery), c, v);
    }
  }

  lemma CallbackKeepsTold(w: World, a: Action, c: Callback, v: Value)
    requires Inv(w) && Enabled(w, a) && (a.CallbackReturns? || a.CallbackThrows?) && Told(w, c, v)
    ensures Told(Apply(w, a), c, v) || InHand(w, a, c, v)
  {
    TopsExist(w);
    if !InHand(w, a, c, v) {
      forall b <- w.control ensures b == Top(w) || b in Pop(w).control {
        var i :| 0 <= i < |w.control| && w.control[i] == b;
        assert i < |w.control| - 1 ==> Pop(w).control[i] == b;
      }
      assert Told(Pop(w), c, v);
      if a.CallbackReturns? {
        FinishKeepsCallbacks(Pop(w), Top(w).callback, Top(w).v, Some(a.v), "");
      } else {
        FinishKeepsCallbacks(Pop(w), Top(w).callback, Top(w).v, None, a.error);
      }
      hide Told, Inv, FinishCallback;
      KeptIsTold(Pop(w), Apply(w, a), c, v);
    }
  }

  lemma MicrotaskKeepsTold(w: World, c: Callback, v: Value)
    requires Enabled(w, RunMicrotask) && Told(w, c, v)
    ensures Told(Apply(w, RunMicrotask), c, v)
  {
    var j, w' := w.microtasks[0], Apply(w, RunMicrotask);
    var k :| k in w.microtasks && InJob(k, c, v);
    if k == j {
      assert InActivation(w'.control[0], c, v);
    } else {
      assert k in w.microtasks[1..];
    }
    hide WellFormed;
  }

  /** A reaction once sent out stays on its way until the step that runs it, or runs on until its function returns. */
  lemma StepKeepsTold(w: World, a: Action, c: Callback, v: Value)
    requires Inv(w) && Enabled(w, a) && Told(w, c, v)
    ensures Told(Apply(w, a), c, v) || InHand(w, a, c, v)
  {
    match a
    case RunMicrotask => MicrotaskKeepsTold(w, c, v);
    case StepDelivery => DeliveryKeepsTold(w, c, v);
    case CallbackReturns(_) => CallbackKeepsTold(w, a, c, v);
    case CallbackThrows(_) => CallbackKeepsTold(w, a, c, v);
    case _ =>
      PlainKeepsCallbacks(w, a);
      hide Inv, Told;
      KeptIsTold(w, Apply(w, a), c, v);
  }
}
