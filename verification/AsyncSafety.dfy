/** The invariant holds in every reachable state of every program, and what follows from it. */
module AsyncSafety {
  import opened Wrappers
  import opened AsyncMachine
  import opened AsyncWellFormed
  import opened AsyncOwnership
  import opened AsyncFrames

  // ---------- every step keeps the balance and freezes settled promises ----------

  /** The state after then, catch or finally, for the given pair of closures. */
  function Attached(w: World, p: PromiseId, mark: bool, on: Reaction, onr: Reaction): World
    requires p < |w.promises| && ParentsExist(w.promises)
  {
    var w1 := AddPromise(w, FreshPromise(Some(p), Derived));
    React(if mark then Mark(w1, p) else w1, p, on, onr)
  }

  lemma AttachBalance(w: World, p: PromiseId, mark: bool, on: Reaction, onr: Reaction, t: Target)
    requires WellFormed(w) && p < |w.promises| && TargetOf(on) == TargetOf(onr) == OfPromise(|w.promises|)
    ensures Balance(Attached(w, p, mark, on, onr), t) == Balance(w, t)
  {
    var x := FreshPromise(Some(p), Derived);
    var w1 := AddPromise(w, x);
    AddBalance(w, x, t);
    hide Balance, WellFormed;
    MarkBalance(w1, p, t);
    ReactBalance(if mark then Mark(w1, p) else w1, p, on, onr, t);
  }

  lemma AttachAdvances(w: World, p: PromiseId, mark: bool, on: Reaction, onr: Reaction, q: PromiseId)
    requires WellFormed(w) && p < |w.promises| && TargetOf(on) == TargetOf(onr)
    ensures Advances(w, Attached(w, p, mark, on, onr), q)
  {
    var x := FreshPromise(Some(p), Derived);
    var w1 := AddPromise(w, x);
    MarkAdvances(w1, p, q);
    ReactAdvances(if mark then Mark(w1, p) else w1, p, on, onr, q);
  }

  lemma AttachKeeps(w: World, p: PromiseId, mark: bool, on: Reaction, onr: Reaction, t: Target, q: PromiseId)
    requires WellFormed(w) && p < |w.promises| && TargetOf(on) == TargetOf(onr) == OfPromise(|w.promises|)
    ensures Balance(Attached(w, p, mark, on, onr), t) == Balance(w, t)
    ensures Advances(w, Attached(w, p, mark, on, onr), q)
  {
    AttachBalance(w, p, mark, on, onr, t);
    AttachAdvances(w, p, mark, on, onr, q);
  }

  lemma AttachStep(w: World, a: Action, t: Target, q: PromiseId)
    requires Enabled(w, a) && (a.AttachThen? || a.AttachCatch? || a.AttachFinally?)
    ensures Balance(Apply(w, a), t) == Balance(w, t) && Advances(w, Apply(w, a), q)
  {
    var n := |w.promises|;
    hide Balance, Advances;
    match a
    case AttachThen(p, f, r) =>
      AttachKeeps(w, p, r.Some?, RunThen(n, f, r, false),
        if w.promises[p].status == Rejected && r.None? then RejectNextLater(n) else RunThen(n, f, r, true), t, q);
    case AttachCatch(p, f) => AttachKeeps(w, p, true, ResolveNextLater(n), RunCatch(n, f), t, q);
    case AttachFinally(p, f) => AttachKeeps(w, p, false, RunFinally(n, f, false), RunFinally(n, f, true), t, q);
  }

  lemma SettleGuardedStep(w: World, p: PromiseId, v: Value, t: Target, q: PromiseId)
    requires AllPaired(w) && p < |w.promises| && w.promises[p].origin != Derived
    ensures Balance(FulfillPromise(w, p, v), t) == Balance(w, t) == Balance(RejectPromise(w, p, v), t)
    ensures Advances(w, FulfillPromise(w, p, v), q) && Advances(w, RejectPromise(w, p, v), q)
  {
    SettleGuardedBalance(w, p, v, t);
  }

  lemma PopFrameKeeps(w: World, t: Target)
    ensures Balance(PopFrame(w), t) == Balance(w, t)
  {
  }

  lemma OfCallPromise(w: World, f: FrameId)
    requires FramesOk(w) && f < |w.frames| && w.frames[f].pendingPromise.Some?
    ensures w.frames[f].pendingPromise.value < |w.promises|
    ensures w.promises[w.frames[f].pendingPromise.value].origin == OfCall
  {
    assert FrameOk(w, f);
  }

  lemma SettleAndLeave(w: World, p: PromiseId, fulfil: bool, v: Value, t: Target, q: PromiseId)
    requires AllPaired(w) && p < |w.promises| && w.promises[p].origin != Derived
    requires w.control != [] && Top(w).AsyncBody?
    ensures var w1 := if fulfil then FulfillPromise(w, p, v) else RejectPromise(w, p, v);
            w1.control == w.control
            && Balance(PopFrame(Pop(w1)), t) == Balance(w, t) && Advances(w, PopFrame(Pop(w1)), q)
  {
    SettleGuardedStep(w, p, v, t, q);
    var w1 := if fulfil then FulfillPromise(w, p, v) else RejectPromise(w, p, v);
    PopBalance(w1, t);
    PopFrameKeeps(Pop(w1), t);
  }

  lemma FinishAsyncStep(w: World, a: Action, t: Target, q: PromiseId)
    requires Inv(w) && Enabled(w, a) && a.FinishAsync?
    ensures Balance(Apply(w, a), t) == Balance(w, t) && Advances(w, Apply(w, a), q)
  {
    TopsExist(w);
    OfCallPromise(w, Top(w).f);
    hide Balance, Owned, FramesOk, WellFormed, AllPaired, Advances;
    SettleAndLeave(w, w.frames[Top(w).f].pendingPromise.value, a.fulfil, a.v, t, q);
  }

  lemma CallbackStep(w: World, a: Action, t: Target, q: PromiseId)
    requires Inv(w) && Enabled(w, a) && (a.CallbackReturns? || a.CallbackThrows?)
    ensures Balance(Apply(w, a), t) == 0 && Advances(w, Apply(w, a), q)
  {
    var c := Top(w).callback;
    OwnedBalance(w, t);
    OwnedBalance(w, TargetOf(c.reaction));
    PopBalance(w, t);
    PopBalance(w, TargetOf(c.reaction));
    TopsExist(w);
    hide Balance, Owned, FramesOk, WellFormed, AllPaired;
    var res, error := if a.CallbackReturns? then Some(a.v) else None, if a.CallbackReturns? then "" else a.error;
    FinishCallbackBalance(Pop(w), c, Top(w).v, res, error, t);
    FinishCallbackAdvances(Pop(w), c, Top(w).v, res, error, q);
  }

  lemma AwaitStep(w: World, a: Action, t: Target, q: PromiseId)
    requires Enabled(w, a) && a.Await?
    ensures Balance(Apply(w, a), t) == Balance(w, t) && Advances(w, Apply(w, a), q)
  {
    TopsExist(w);
    var f := w.callStack[|w.callStack| - 1];
    AwaitBalance(w, f, a.v, t);
    AwaitAdvances(w, f, a.v, q);
    hide Balance, WellFormed;
    AwaitControl(w, f, a.v);
    PopBalance(AwaitIn(w, f, a.v), t);
  }

  lemma AwaitControl(w: World, f: FrameId, v: Value)
    requires f < |w.frames| && ValueExists(v, w) && ParentsExist(w.promises)
    ensures AwaitIn(w, f, v).control == w.control
  {
  }

  lemma CallBalance(w: World, promise: Option<PromiseId>, t: Target)
    ensures Balance(Call(w, promise), t) == Balance(w, t)
  {
  }

  lemma CallStep(w: World, a: Action, t: Target, q: PromiseId)
    requires Enabled(w, a) && (a.CallSync? || a.CallAsync?)
    ensures Balance(Apply(w, a), t) == Balance(w, t) && Advances(w, Apply(w, a), q)
  {
    hide Balance;
    if a.CallSync? {
      CallBalance(w, None, t);
    } else {
      AddBalance(w, FreshPromise(None, OfCall), t);
      CallBalance(AddPromise(w, FreshPromise(None, OfCall)), Some(|w.promises|), t);
    }
  }

  lemma TakenIsSuspended(w: World, f: FrameId)
    requires Balance(w, OfFrame(f)) == -1
    ensures f in w.suspendedFrames
  {
    CountIn(w.suspendedFrames, f);
  }

  lemma StartJobStep(w: World, j: Job, t: Target, q: PromiseId)
    requires WellFormed(w) && JobExists(j, |w.promises|, |w.frames|)
    requires j.Resume? ==> Balance(w, OfFrame(j.f)) == -1
    ensures Balance(StartJob(w, j), t) == Balance(w, t) + JobHits(j, t) && Advances(w, StartJob(w, j), q)
  {
    hide Balance, WellFormed;
    match j
    case Deliver(cs, v) => PushBalance(w, Delivering(cs, v, None), t);
    case DeliverRejection(p, cs, v) => PushBalance(w, Delivering(cs, v, Some(p)), t);
    case CheckUnhandled(p) => ReportBalance(w, p, t);
    case Resume(f) =>
      TakenIsSuspended(w, f);
      ResumeBalance(w, f, t);
  }

  lemma ReportBalance(w: World, p: PromiseId, t: Target)
    requires p < |w.promises|
    ensures Balance(StartJob(w, CheckUnhandled(p)), t) == Balance(w, t)
  {
    SetBalance(w, p, w.promises[p].(reported := true), t);
  }

  lemma MicrotaskStep(w: World, t: Target, q: PromiseId)
    requires Inv(w) && Enabled(w, RunMicrotask)
    ensures Balance(Apply(w, RunMicrotask), t) == 0 && Advances(w, Apply(w, RunMicrotask), q)
  {
    var j := w.microtasks[0];
    assert JobExists(j, |w.promises|, |w.frames|);
    var w1 := w.(microtasks := w.microtasks[1..]);
    OwnedBalance(w, t);
    if j.Resume? {
      OwnedBalance(w, OfFrame(j.f));
    }
    hide Balance, Owned, FramesOk, AllPaired;
    StartJobStep(w1, j, t, q);
  }

  lemma StepKeeps(w: World, a: Action, t: Target, q: PromiseId)
    requires Inv(w) && Enabled(w, a)
    ensures Balance(Apply(w, a), t) == 0 && Advances(w, Apply(w, a), q)
  {
    OwnedBalance(w, t);
    match a
    case StartMacrotask => PushBalance(w, Macrotask, t);
    case EndMacrotask => PopBalance(w, t);
    case NewPromise => AddBalance(w, FreshPromise(None, Constructed), t);
    case SettleConstructed(p, fulfil, v) => SettleGuardedStep(w, p, v, t, q);
    case ReturnSync => PopBalance(w, t); PopFrameKeeps(Pop(w), t);
    case RunMicrotask => MicrotaskStep(w, t, q);
    case StepDelivery => DeliveryBalance(w, t); DeliveryAdvances(w, q);
    case CallSync => CallStep(w, a, t, q);
    case CallAsync => CallStep(w, a, t, q);
    case FinishAsync(_, _) => FinishAsyncStep(w, a, t, q);
    case Await(_) => AwaitStep(w, a, t, q);
    case CallbackReturns(_) => CallbackStep(w, a, t, q);
    case CallbackThrows(_) => CallbackStep(w, a, t, q);
    case _ => AttachStep(w, a, t, q);
  }

  // ---------- every step keeps the frames in order ----------

  ghost predicate OriginsKept(w: World, w': World) {
    |w.promises| <= |w'.promises| && forall p | 0 <= p < |w.promises| :: w'.promises[p].origin == w.promises[p].origin
  }

  lemma DeliveryAtBottom(w: World)
    requires FramesOk(w) && w.control != [] && Top(w).Delivering?
    ensures |w.control| == 1
  {
  }

  lemma TakeFirstFrames(w: World)
    requires WellFormed(w) && FramesOk(w) && w.control != [] && Top(w).Delivering? && Top(w).rest != []
    ensures FramesOk(TakeFirst(w)) && TakeFirst(w).control == [Top(w).(rest := Top(w).rest[1..])]
    ensures OriginsKept(w, TakeFirst(w)) && |TakeFirst(w).promises| == |w.promises|
  {
    DeliveryAtBottom(w);
    assert CallbackExists(Top(w).rest[0], |w.promises|, |w.frames|);
    PopOk(w);
    hide FramesOk, WellFormed;
    PushOk(Pop(w), Top(w).(rest := Top(w).rest[1..]));
    SameFramesOk(Push(Pop(w), Top(w).(rest := Top(w).rest[1..])), TakeFirst(w));
  }

  lemma StartCallbackFrames(w: World, c: Callback, v: Value)
    requires FramesOk(w) && CallbackExists(c, |w.promises|, |w.frames|) && OriginsKept(w, StartCallback(w, c, v))
    ensures FramesOk(StartCallback(w, c, v))
  {
    hide FramesOk;
    if RunsUserFunction(c.reaction) && !(c.reaction.RunThen? && c.reaction.wasRejected && c.reaction.onRejected.None?) {
      PushOk(w, InCallback(c, v));
    } else {
      SameFramesOk(w, StartCallback(w, c, v));
    }
  }

  lemma DeliveryFrames(w: World)
    requires Inv(w) && Enabled(w, StepDelivery) && OriginsKept(w, DeliveryTurn(w))
    ensures FramesOk(DeliveryTurn(w))
  {
    if Top(w).rest == [] {
      PopOk(w);
      hide FramesOk, Owned, AllPaired;
      SameFramesOk(Pop(w), DeliveryTurn(w));
    } else {
      assert CallbackExists(Top(w).rest[0], |w.promises|, |w.frames|);
      TakeFirstFrames(w);
      hide FramesOk, Owned, AllPaired;
      StartCallbackFrames(TakeFirst(w), Top(w).rest[0], Top(w).v);
    }
  }

  lemma MicrotaskFrames(w: World)
    requires Inv(w) && Enabled(w, RunMicrotask) && OriginsKept(w, Apply(w, RunMicrotask))
    ensures FramesOk(Apply(w, RunMicrotask))
  {
    var j := w.microtasks[0];
    assert JobExists(j, |w.promises|, |w.frames|);
    var w1 := w.(microtasks := w.microtasks[1..]);
    SameFramesOk(w, w1);
    match j
    case Deliver(cs, v) => PushOk(w1, Delivering(cs, v, None));
    case DeliverRejection(p, cs, v) => PushOk(w1, Delivering(cs, v, Some(p)));
    case CheckUnhandled(p) => SameFramesOk(w1, StartJob(w1, j));
    case Resume(f) =>
      OwnedBalance(w, OfFrame(f));
      TakenIsSuspended(w1, f);
      ResumeOk(w1, f);
  }

  lemma AwaitFrames(w: World, v: Value)
    requires Inv(w) && Enabled(w, Await(v)) && OriginsKept(w, Apply(w, Await(v)))
    ensures FramesOk(Apply(w, Await(v)))
  {
    LeaveBody(w);
    TopsExist(w);
    hide FramesOk, WellFormed, AwaitIn, Owned, AllPaired, OriginsKept;
    SuspendRegistered(w, Top(w).f, v);
  }

  lemma SuspendRegistered(w: World, f: FrameId, v: Value)
    requires WellFormed(w) && FramesOk(w) && w.control != [] && Top(w) == AsyncBody(f)
    requires f < |w.frames| && ValueExists(v, w)
    ensures FramesOk(Pop(AwaitIn(w, f, v)))
  {
    RegisterKeeps(w, f, v);
    hide FramesOk, WellFormed, Register;
    SameFramesOk(w, Register(w, f, v));
    SuspendOk(Register(w, f, v), AwaitedBy(w, v));
  }

  /** Arranging for the wake-up touches no frame and neither stack. */
  lemma RegisterKeeps(w: World, f: FrameId, v: Value)
    requires WellFormed(w) && f < |w.frames| && ValueExists(v, w)
    ensures SameFrames(w, Register(w, f, v)) && WellFormed(Register(w, f, v))
  {
    if v.PromiseRef? {
      if w.promises[v.p].status == Pending {
        WfReact(Mark(w, v.p), v.p, WakeFrame(f, false), WakeFrame(f, true));
      }
    }
  }

  lemma FinishFrames(w: World, fulfil: bool, v: Value)
    requires Inv(w) && Enabled(w, FinishAsync(fulfil, v)) && OriginsKept(w, Apply(w, FinishAsync(fulfil, v)))
    ensures FramesOk(Apply(w, FinishAsync(fulfil, v)))
  {
    TopsExist(w);
    hide FramesOk, Owned, AllPaired;
    var p := w.frames[Top(w).f].pendingPromise.value;
    var w1 := if fulfil then FulfillPromise(w, p, v) else RejectPromise(w, p, v);
    SameFramesOk(w, w1);
    ReturnOk(w1);
  }

  lemma CallFrames(w: World, a: Action)
    requires Inv(w) && Enabled(w, a) && (a.CallSync? || a.CallAsync?)
    ensures FramesOk(Apply(w, a))
  {
    if a.CallSync? {
      CallOk(w, None);
    } else {
      var x := FreshPromise(None, OfCall);
      SameFramesOk(w, AddPromise(w, x));
      WfAddPromise(w, x);
      hide FramesOk, Owned, AllPaired, WellFormed;
      CallOk(AddPromise(w, x), Some(|w.promises|));
    }
  }

  lemma CallbackFrames(w: World, a: Action)
    requires Inv(w) && Enabled(w, a) && (a.CallbackReturns? || a.CallbackThrows?) && OriginsKept(w, Apply(w, a))
    ensures FramesOk(Apply(w, a))
  {
    PopOk(w);
    TopsExist(w);
    hide FramesOk, Owned, AllPaired, WellFormed;
    SameFramesOk(Pop(w), Apply(w, a));
  }

  lemma OtherFrames(w: World, a: Action)
    requires Inv(w) && Enabled(w, a) && OriginsKept(w, Apply(w, a))
    requires a.NewPromise? || a.SettleConstructed? || a.AttachThen? || a.AttachCatch? || a.AttachFinally?
    ensures FramesOk(Apply(w, a))
  {
    hide FramesOk, Owned, AllPaired;
    SameFramesOk(w, Apply(w, a));
  }

  lemma FramesStep(w: World, a: Action)
    requires Inv(w) && Enabled(w, a) && OriginsKept(w, Apply(w, a))
    ensures FramesOk(Apply(w, a))
  {
    match a
    case StartMacrotask => PushOk(w, Macrotask);
    case EndMacrotask => PopOk(w);
    case RunMicrotask => MicrotaskFrames(w);
    case StepDelivery => DeliveryFrames(w);
    case ReturnSync => ReturnOk(w);
    case CallSync => CallFrames(w, a);
    case CallAsync => CallFrames(w, a);
    case FinishAsync(fulfil, v) => FinishFrames(w, fulfil, v);
    case Await(v) => AwaitFrames(w, v);
    case CallbackReturns(_) => CallbackFrames(w, a);
    case CallbackThrows(_) => CallbackFrames(w, a);
    case _ => OtherFrames(w, a);
  }

  // ---------- every run ----------

  lemma FromAdvances(w: World, w': World)
    requires AllPaired(w) && forall q :: Advances(w, w', q)
    ensures AllPaired(w') && OriginsKept(w, w')
  {
    assert Advances(w, w', 0);
    forall p | 0 <= p < |w'.promises|
      ensures Paired(w'.promises[p], p) && (p < |w.promises| ==> w'.promises[p].origin == w.promises[p].origin)
    {
      assert Advances(w, w', p);
      assert p < |w.promises| ==> Paired(w.promises[p], p);
    }
  }

  lemma FromBalances(w: World)
    requires forall t :: Balance(w, t) == 0
    ensures Owned(w)
  {
    forall t ensures Outstanding(w, t) == Expected(w, t) {
      assert Balance(w, t) == 0;
    }
  }

  lemma StepInv(w: World, a: Action)
    requires Inv(w) && Enabled(w, a)
    ensures Inv(Apply(w, a))
    ensures forall q :: Advances(w, Apply(w, a), q)
  {
    var w' := Apply(w, a);
    forall t ensures Balance(w', t) == 0 { StepKeeps(w, a, t, 0); }
    forall q ensures Advances(w, w', q) { StepKeeps(w, a, OfFrame(0), q); }
    hide Balance, Advances, AllPaired, Owned, FramesOk, WellFormed, OriginsKept;
    FromAdvances(w, w');
    FromBalances(w');
    FramesStep(w, a);
    WfStep(w, a);
  }

  lemma {:induction false} RunInv(w: World, actions: seq<Action>, w': World)
    requires Inv(w)
    ensures Run(w, actions, w') ==> Inv(w')
    decreases |actions|
  {
    if actions != [] && Run(w, actions, w') {
      StepInv(w, actions[0]);
      RunInv(Apply(w, actions[0]), actions[1..], w');
    }
  }

  lemma ReachableInv(w: World)
    requires Reachable(w)
    ensures Inv(w)
  {
    var actions :| Run(INIT, actions, w);
    RunInv(INIT, actions, w);
  }

  // ---------- main results ----------

  /** Each promise leaves PENDING at most once, in every run of every program: once it is settled its state, its
      result and its callback lists never change again. */
  lemma {:induction false} SettledForever(w: World, actions: seq<Action>, w': World, p: PromiseId)
    requires Reachable(w) && Run(w, actions, w') && p < |w.promises| && w.promises[p].status != Pending
    ensures p < |w'.promises|
    ensures w'.promises[p].status == w.promises[p].status && w'.promises[p].result == w.promises[p].result
    ensures w'.promises[p].thenCallbacks == w.promises[p].thenCallbacks
    ensures w'.promises[p].catchCallbacks == w.promises[p].catchCallbacks
  {
    ReachableInv(w);
    RunFreezes(w, actions, w', p);
  }

  lemma {:induction false} RunFreezes(w: World, actions: seq<Action>, w': World, p: PromiseId)
    requires Inv(w)
    ensures Run(w, actions, w') ==> Advances(w, w', p)
    decreases |actions|
  {
    if actions != [] && Run(w, actions, w') {
      StepInv(w, actions[0]);
      assert Advances(w, Apply(w, actions[0]), p);
      RunFreezes(Apply(w, actions[0]), actions[1..], w', p);
    }
  }

  /** A pending promise made by then, catch or finally always has exactly one reaction that will settle it, and no
      other promise has any: nothing is settled twice and nothing is forgotten. */
  lemma OneSettler(w: World, p: PromiseId)
    requires Reachable(w)
    ensures Outstanding(w, OfPromise(p)) == if OwesSettling(w, p) then 1 else 0
  {
    ReachableInv(w);
  }

  /** A suspended frame is among the suspended frames exactly once, off the call stack, and exactly one reaction or
      microtask will resume it; a frame that is not suspended is never resumed. */
  lemma OneResumption(w: World, f: FrameId)
    requires Reachable(w) && f < |w.frames|
    ensures w.frames[f].isSuspended ==>
              Count(w.suspendedFrames, f) == 1 && f !in w.callStack && Outstanding(w, OfFrame(f)) == 1
    ensures !w.frames[f].isSuspended ==> f !in w.suspendedFrames && Outstanding(w, OfFrame(f)) == 0
  {
    ReachableInv(w);
    assert FrameOk(w, f) && OncePlaced(w, f);
    CountIn(w.suspendedFrames, f);
    CountIn(w.callStack, f);
    assert Outstanding(w, OfFrame(f)) == Expected(w, OfFrame(f));
  }

  /** A queued resumption finds its frame suspended, once and off the call stack, and nothing else will wake it. */
  lemma ResumeFindsSuspended(w: World, f: FrameId)
    requires Reachable(w) && Resume(f) in w.microtasks
    ensures f in w.suspendedFrames && Count(w.suspendedFrames, f) == 1 && f !in w.callStack
    ensures Outstanding(w, OfFrame(f)) == 1
  {
    ReachableInv(w);
    NoHitNoJob(w.microtasks, OfFrame(f), Resume(f));
    assert OncePlaced(w, f) && Outstanding(w, OfFrame(f)) == Expected(w, OfFrame(f));
    CountIn(w.suspendedFrames, f);
    CountIn(w.callStack, f);
  }
}
