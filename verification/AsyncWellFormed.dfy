module AsyncWellFormed {
  import opened Wrappers
  import opened AsyncMachine

  lemma WfReact(w: World, p: PromiseId, on: Reaction, onr: Reaction)
    requires WellFormed(w) && p < |w.promises|
    requires TargetExists(TargetOf(on), |w.promises|, |w.frames|)
    requires TargetExists(TargetOf(onr), |w.promises|, |w.frames|)
    ensures WellFormed(React(w, p, on, onr))
  {
  }

  lemma WfSuspend(w: World, f: FrameId, a: Awaited)
    requires WellFormed(w) && f < |w.frames|
    ensures WellFormed(Suspend(w, f, a))
  {
    WfPopFrame(w);
    var w' := Suspend(w, f, a);
    assert forall g <- w'.suspendedFrames :: g in w.suspendedFrames || g == f;
    assert w'.callStack == PopFrame(w).callStack;
  }

  lemma WfPopFrame(w: World)
    requires WellFormed(w)
    ensures WellFormed(PopFrame(w))
  {
    assert forall g <- PopFrame(w).callStack :: g in w.callStack;
  }

  lemma {:induction false} RemoveKeeps(s: seq<FrameId>, f: FrameId, g: FrameId)
    requires g in Remove(s, f)
    ensures g in s
  {
    if s[0] != f && g != s[0] {
      RemoveKeeps(s[1..], f, g);
    }
  }

  lemma WfResume(w: World, f: FrameId)
    requires WellFormed(w) && f < |w.frames|
    ensures WellFormed(ResumeFrame(w, f))
  {
    var w' := ResumeFrame(w, f);
    forall g | g in w'.suspendedFrames ensures g in w.suspendedFrames { RemoveKeeps(w.suspendedFrames, f, g); }
    assert forall g <- w'.callStack :: g in w.callStack || g == f;
  }

  lemma WfStartCallback(w: World, c: Callback, v: Value)
    requires WellFormed(w) && CallbackExists(c, |w.promises|, |w.frames|)
    ensures WellFormed(StartCallback(w, c, v))
  {
  }

  lemma WfDelivery(w: World)
    requires Enabled(w, StepDelivery)
    ensures WellFormed(DeliveryTurn(w))
  {
    if Top(w).rest != [] {
      assert CallbackExists(Top(w).rest[0], |w.promises|, |w.frames|);
      WfStartCallback(TakeFirst(w), Top(w).rest[0], Top(w).v);
    }
  }

  lemma WfAwait(w: World, f: FrameId, v: Value)
    requires WellFormed(w) && f < |w.frames| && ValueExists(v, w)
    ensures WellFormed(AwaitIn(w, f, v))
  {
    if v.PromiseRef? {
      if w.promises[v.p].status == Pending {
        WfReact(Mark(w, v.p), v.p, WakeFrame(f, false), WakeFrame(f, true));
      }
    }
    WfSuspend(Register(w, f, v), f, AwaitedBy(w, v));
  }

  lemma WfFinishCallback(w: World, c: Callback, v: Value, res: Option<Value>, error: string)
    requires WellFormed(w)
    requires CallbackExists(c, |w.promises|, |w.frames|) && (res.Some? ==> ValueExists(res.value, w))
    requires RunsUserFunction(c.reaction)
    ensures WellFormed(FinishCallback(w, c, v, res, error))
  {
    var n := c.reaction.next;
    WfSettleNext(w, n, v);
    WfSettleNext(w, n, Text(error));
    if res.Some? {
      WfSettleNext(w, n, res.value);
      if res.value.PromiseRef? {
        WfSettleNext(w, n, w.promises[res.value.p].result);
        WfReact(w, res.value.p, ResolveNextLater(n), RejectNextLater(n));
      }
    }
    hide WellFormed, ResolveNext, RejectNext;
  }

  lemma WfSettleNext(w: World, n: PromiseId, v: Value)
    requires WellFormed(w) && n < |w.promises|
    ensures WellFormed(ResolveNext(w, n, v)) && WellFormed(RejectNext(w, n, v))
  {
  }

  lemma WfAddPromise(w: World, x: Promise)
    requires WellFormed(w) && PromiseExists(x, |w.promises|, |w.frames|)
    ensures WellFormed(AddPromise(w, x))
  {
  }

  lemma WfCall(w: World, promise: Option<PromiseId>)
    requires WellFormed(w) && (promise.Some? ==> promise.value < |w.promises|)
    ensures WellFormed(Call(w, promise))
  {
  }

  lemma WfAttach(w: World, p: PromiseId, mark: bool, on: Reaction, onr: Reaction)
    requires WellFormed(w) && p < |w.promises|
    requires TargetOf(on) == TargetOf(onr) == OfPromise(|w.promises|)
    ensures var w1 := AddPromise(w, FreshPromise(Some(p), Derived));
            WellFormed(w1) && WellFormed(React(if mark then Mark(w1, p) else w1, p, on, onr))
  {
    var w1 := AddPromise(w, FreshPromise(Some(p), Derived));
    WfAddPromise(w, FreshPromise(Some(p), Derived));
    if mark {
    }
    WfReact(if mark then Mark(w1, p) else w1, p, on, onr);
  }

  lemma WfRunMicrotask(w: World)
    requires WellFormed(w) && w.control == [] && w.microtasks != []
    ensures WellFormed(Apply(w, RunMicrotask))
  {
    if w.microtasks[0].Resume? {
      WfResume(w.(microtasks := w.microtasks[1..]), w.microtasks[0].f);
    }
  }

  lemma WfPop(w: World)
    requires WellFormed(w) && w.control != []
    ensures WellFormed(Pop(w)) && WellFormed(PopFrame(Pop(w)))
  {
    WfPopFrame(Pop(w));
  }

  lemma WfSettle(w: World, p: PromiseId, v: Value)
    requires WellFormed(w) && p < |w.promises|
    ensures WellFormed(FulfillPromise(w, p, v)) && WellFormed(RejectPromise(w, p, v))
  {
  }

  lemma TopsExist(w: World)
    requires WellFormed(w)
    ensures w.control != [] ==> ActivationExists(Top(w), |w.promises|, |w.frames|)
    ensures w.callStack != [] ==> w.callStack[|w.callStack| - 1] < |w.frames|
    ensures forall f | 0 <= f < |w.frames| && w.frames[f].pendingPromise.Some? ::
              w.frames[f].pendingPromise.value < |w.promises|
  {
    if w.callStack != [] {
      assert w.callStack[|w.callStack| - 1] in w.callStack;
    }
  }

  lemma WfStep(w: World, a: Action)
    requires Enabled(w, a)
    ensures WellFormed(Apply(w, a))
  {
    TopsExist(w);
    hide WellFormed, FinishCallback, Call, FulfillPromise, RejectPromise, MarkHandled, React;
    match a
    case AttachThen(p, f, r) =>
      var n := |w.promises|;
      WfAttach(w, p, r.Some?, RunThen(n, f, r, false),
        if w.promises[p].status == Rejected && r.None? then RejectNextLater(n) else RunThen(n, f, r, true));
    case AttachCatch(p, f) => WfAttach(w, p, true, ResolveNextLater(|w.promises|), RunCatch(|w.promises|, f));
    case AttachFinally(p, f) =>
      WfAttach(w, p, false, RunFinally(|w.promises|, f, false), RunFinally(|w.promises|, f, true));
    case Await(v) =>
      WfAwait(w, w.callStack[|w.callStack| - 1], v);
      WfPop(AwaitIn(w, w.callStack[|w.callStack| - 1], v));
    case CallSync => WfCall(w, None);
    case CallAsync =>
      WfAddPromise(w, FreshPromise(None, OfCall));
      WfCall(AddPromise(w, FreshPromise(None, OfCall)), Some(|w.promises|));
    case ReturnSync => WfPop(w);
    case FinishAsync(fulfil, v) =>
      var p := w.frames[Top(w).f].pendingPromise.value;
      WfSettle(w, p, v);
      WfPop(if fulfil then FulfillPromise(w, p, v) else RejectPromise(w, p, v));
    case RunMicrotask => WfRunMicrotask(w);
    case StepDelivery => WfDelivery(w);
    case CallbackReturns(v) =>
      WfPop(w);
      WfFinishCallback(Pop(w), Top(w).callback, Top(w).v, Some(v), "");
    case CallbackThrows(error) =>
      WfPop(w);
      WfFinishCallback(Pop(w), Top(w).callback, Top(w).v, None, error);
    case EndMacrotask => WfPop(w);
    case SettleConstructed(p, fulfil, v) => WfSettle(w, p, v);
    case NewPromise => WfAddPromise(w, FreshPromise(None, Constructed));
    case StartMacrotask =>
  }
}
