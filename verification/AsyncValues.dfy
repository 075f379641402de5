/** What reactions are told: every reaction runs with the final state and result of the promise it was attached to.
    On that rest the values of derived promises: what passes through unchanged, and what adopts another promise. */
module AsyncValues {
  import opened Wrappers
  import opened AsyncMachine
  import opened AsyncWellFormed
  import opened AsyncOwnership
  import opened AsyncSafety
  import opened AsyncOrder
  import opened AsyncCalls

  /** The side a reaction belongs to. */
  predicate OnSide(r: Reaction, s: Status) {
    match r
    case RunThen(_, _, _, wasRejected) => s == if wasRejected then Rejected else Fulfilled
    case RunCatch(_, _) => s == Rejected
    case RunFinally(_, _, wasRejected) => s == if wasRejected then Rejected else Fulfilled
    case ResolveNextLater(_) => s == Fulfilled
    case RejectNextLater(_) => s == Rejected
    case WakeFrame(_, threw) => s == if threw then Rejected else Fulfilled
  }

  ghost predicate InJob(j: Job, c: Callback, v: Value) {
    match j
    case Deliver(cs, u) => u == v && c in cs
    case DeliverRejection(_, cs, u) => u == v && c in cs
    case _ => false
  }

  ghost predicate InActivation(a: Activation, c: Callback, v: Value) {
    match a
    case Delivering(rest, u, _) => u == v && c in rest
    case InCallback(d, u) => u == v && c == d
    case _ => false
  }

  /** The callback c is on its way, or running, with the value v. */
  ghost predicate Told(w: World, c: Callback, v: Value) {
    (exists j <- w.microtasks :: InJob(j, c, v)) || (exists a <- w.control :: InActivation(a, c, v))
  }

  /** The pending promise p keeps c for the day it ends in state s. */
  ghost predicate Listed(w: World, p: PromiseId, s: Status, c: Callback) {
    && p < |w.promises| && w.promises[p].status == Pending
    && ((s == Fulfilled && c in w.promises[p].thenCallbacks) || (s == Rejected && c in w.promises[p].catchCallbacks))
  }

  // ---------- what one step changes ----------

  /** At most one promise settles in a step, or one pair of reactions is attached. */
  datatype Change =
    | Nothing
    | Settling(p: PromiseId, s: Status, v: Value)
    | Attaching(p: PromiseId, on: Reaction, onr: Reaction)

  ghost predicate NewlyListed(ch: Change, p: PromiseId, s: Status, c: Callback) {
    ch.Attaching? && ch.p == p && c.source == p && c.reaction == if s == Fulfilled then ch.on else ch.onr
  }

  ghost predicate NewlyTold(w: World, ch: Change, c: Callback, v: Value) {
    match ch
    case Nothing => false
    case Settling(p, s, u) => u == v && Listed(w, p, s, c)
    case Attaching(p, on, onr) =>
      && p < |w.promises| && w.promises[p].status != Pending && c.source == p && v == w.promises[p].result
      && c.reaction == if w.promises[p].status == Fulfilled then on else onr
  }

  predicate SameOutcome(x: Promise, y: Promise) {
    x.status == y.status && x.result == y.result
  }

  ghost predicate Changes(w: World, w': World, ch: Change) {
    && |w.promises| <= |w'.promises|
    && (forall p | 0 <= p < |w.promises| :: (ch.Settling? && ch.p == p) || SameOutcome(w.promises[p], w'.promises[p]))
    && (forall p, s, c :: Listed(w', p, s, c) ==> Listed(w, p, s, c) || NewlyListed(ch, p, s, c))
    && (forall c, v :: Told(w', c, v) ==> Told(w, c, v) || NewlyTold(w, ch, c, v))
    && (ch.Settling? ==>
          && ch.p < |w.promises| && w.promises[ch.p].status == Pending && ch.s != Pending
          && w'.promises[ch.p].status == ch.s && w'.promises[ch.p].result == ch.v)
    && (ch.Attaching? ==> ch.p < |w.promises|)
  }

  lemma QuietThen(w: World, w1: World, w2: World, ch: Change)
    requires Changes(w, w1, Nothing) && Changes(w1, w2, ch)
    requires ch.Attaching? || ch.Settling? ==> ch.p < |w.promises|
    ensures Changes(w, w2, ch)
  {
    forall p | 0 <= p < |w.promises|
      ensures (ch.Settling? && ch.p == p) || SameOutcome(w.promises[p], w2.promises[p])
    {
      assert SameOutcome(w.promises[p], w1.promises[p]);
    }
    assert ch.Attaching? || ch.Settling? ==> SameOutcome(w.promises[ch.p], w1.promises[ch.p]);
    hide Listed, Told;
  }

  predicate NoCallbacks(j: Job) {
    j.CheckUnhandled? || j.Resume?
  }

  predicate HoldsNone(a: Activation) {
    !a.Delivering? && !a.InCallback?
  }

  ghost predicate SameLists(ps: seq<Promise>, qs: seq<Promise>) {
    && |ps| <= |qs|
    && (forall p | 0 <= p < |ps| ::
          SameOutcome(ps[p], qs[p]) && qs[p].thenCallbacks == ps[p].thenCallbacks
          && qs[p].catchCallbacks == ps[p].catchCallbacks)
    && (forall p | |ps| <= p < |qs| :: qs[p].thenCallbacks == [] && qs[p].catchCallbacks == [])
  }

  lemma Quiet(w: World, w': World)
    requires SameLists(w.promises, w'.promises)
    requires forall j <- w'.microtasks :: j in w.microtasks || NoCallbacks(j)
    requires forall a <- w'.control :: a in w.control || HoldsNone(a)
    ensures Changes(w, w', Nothing)
  {
  }

  lemma ReactChanges(w: World, p: PromiseId, on: Reaction, onr: Reaction)
    requires p < |w.promises|
    ensures Changes(w, React(w, p, on, onr), Attaching(p, on, onr))
  {
  }

  lemma NextChanges(w: World, n: PromiseId, v: Value)
    requires n < |w.promises| && w.promises[n].status == Pending
    ensures Changes(w, ResolveNext(w, n, v), Settling(n, Fulfilled, v))
    ensures Changes(w, RejectNext(w, n, v), Settling(n, Rejected, v))
  {
  }

  lemma GuardedChanges(w: World, p: PromiseId, v: Value)
    requires p < |w.promises|
    ensures Changes(w, FulfillPromise(w, p, v), Guarded(w, p, true, v))
    ensures Changes(w, RejectPromise(w, p, v), Guarded(w, p, false, v))
  {
    if w.promises[p].status == Pending {
    }
  }

  ghost function Guarded(w: World, p: PromiseId, fulfil: bool, v: Value): Change
    requires p < |w.promises|
  {
    if w.promises[p].status == Pending then Settling(p, if fulfil then Fulfilled else Rejected, v) else Nothing
  }

  ghost function StartChange(c: Callback, v: Value): Change {
    match c.reaction
    case RunThen(n, _, onRejected, wasRejected) =>
      if wasRejected && onRejected.None? then Settling(n, Rejected, v) else Nothing
    case ResolveNextLater(n) => Settling(n, Fulfilled, v)
    case RejectNextLater(n) => Settling(n, Rejected, v)
    case _ => Nothing
  }

  ghost function FinishChange(w: World, c: Callback, v: Value, res: Option<Value>, error: string): Change
    requires RunsUserFunction(c.reaction) && (res.Some? ==> ValueExists(res.value, w))
  {
    var n := c.reaction.next;
    if c.reaction.RunFinally? then Settling(n, if c.reaction.wasRejected then Rejected else Fulfilled, v)
    else if res.None? then Settling(n, Rejected, Text(error))
    else if !res.value.PromiseRef? then Settling(n, Fulfilled, res.value)
    else
      var q := w.promises[res.value.p];
      if q.status == Pending then Attaching(res.value.p, ResolveNextLater(n), RejectNextLater(n))
      else Settling(n, q.status, q.result)
  }

  ghost function ChangeOf(w: World, a: Action): Change
    requires Enabled(w, a)
  {
    var n := |w.promises|;
    match a
    case AttachThen(p, f, r) =>
      Attaching(p, RunThen(n, f, r, false),
                if w.promises[p].status == Rejected && r.None? then RejectNextLater(n) else RunThen(n, f, r, true))
    case AttachCatch(p, f) => Attaching(p, ResolveNextLater(n), RunCatch(n, f))
    case AttachFinally(p, f) => Attaching(p, RunFinally(n, f, false), RunFinally(n, f, true))
    case SettleConstructed(p, fulfil, v) => Guarded(w, p, fulfil, v)
    case FinishAsync(fulfil, v) =>
      TopsExist(w);
      Guarded(w, w.frames[Top(w).f].pendingPromise.value, fulfil, v)
    case Await(v) =>
      var f := w.callStack[|w.callStack| - 1];
      if v.PromiseRef? && w.promises[v.p].status == Pending
      then Attaching(v.p, WakeFrame(f, false), WakeFrame(f, true)) else Nothing
    case StepDelivery => if Top(w).rest == [] then Nothing else StartChange(Top(w).rest[0], Top(w).v)
    case CallbackReturns(v) => FinishChange(w, Top(w).callback, Top(w).v, Some(v), "")
    case CallbackThrows(error) => FinishChange(w, Top(w).callback, Top(w).v, None, error)
    case _ => Nothing
  }

  // ---------- each step makes that change and no other ----------

  lemma AttachedChanges(w: World, p: PromiseId, mark: bool, on: Reaction, onr: Reaction)
    requires WellFormed(w) && p < |w.promises|
    ensures Changes(w, Attached(w, p, mark, on, onr), Attaching(p, on, onr))
  {
    var w1 := AddPromise(w, FreshPromise(Some(p), Derived));
    WfAddPromise(w, FreshPromise(Some(p), Derived));
    Quiet(w, w1);
    if mark {
      QuietThen(w, w1, Mark(w1, p), Nothing);
    }
    hide Changes, WellFormed, React, Mark;
    var w2 := if mark then Mark(w1, p) else w1;
    ReactChanges(w2, p, on, onr);
    QuietThen(w, w2, React(w2, p, on, onr), Attaching(p, on, onr));
  }

  lemma FinishCallbackChanges(w: World, c: Callback, v: Value, res: Option<Value>, error: string)
    requires CallbackExists(c, |w.promises|, |w.frames|) && (res.Some? ==> ValueExists(res.value, w))
    requires RunsUserFunction(c.reaction) && w.promises[c.reaction.next].status == Pending
    ensures Changes(w, FinishCallback(w, c, v, res, error), FinishChange(w, c, v, res, error))
  {
    var n := c.reaction.next;
    hide Changes, ResolveNext, RejectNext, React;
    if c.reaction.RunFinally? {
      NextChanges(w, n, v);
    } else if res.None? {
      NextChanges(w, n, Text(error));
    } else if !res.value.PromiseRef? {
      NextChanges(w, n, res.value);
    } else if w.promises[res.value.p].status == Pending {
      ReactChanges(w, res.value.p, ResolveNextLater(n), RejectNextLater(n));
    } else {
      NextChanges(w, n, w.promises[res.value.p].result);
    }
  }

  lemma CallbackChanges(w: World, a: Action)
    requires Inv(w) && Enabled(w, a) && (a.CallbackReturns? || a.CallbackThrows?)
    ensures Changes(Pop(w), Apply(w, a), ChangeOf(w, a))
    ensures OwesSettling(Pop(w), Top(w).callback.reaction.next)
  {
    ReadyToFinish(w, a);
    var c := Top(w).callback;
    HolderFindsPending(Pop(w), c.reaction.next);
    hide Inv, Changes, Balance, AllPaired;
    if a.CallbackReturns? {
      FinishCallbackChanges(Pop(w), c, Top(w).v, Some(a.v), "");
    } else {
      FinishCallbackChanges(Pop(w), c, Top(w).v, None, a.error);
    }
  }

  lemma TakeQuiet(w: World)
    requires |w.control| == 1 && Top(w).Delivering? && Top(w).rest != []
    requires ActivationExists(Top(w), |w.promises|, |w.frames|)
    ensures Changes(w, TakeFirst(w), Nothing) && Told(w, Top(w).rest[0], Top(w).v)
  {
    assert CallbackExists(Top(w).rest[0], |w.promises|, |w.frames|);
    var w' := TakeFirst(w);
    assert w'.control == [Top(w).(rest := Top(w).rest[1..])];
    assert InActivation(w.control[0], Top(w).rest[0], Top(w).v);
    forall c, v | Told(w', c, v) ensures Told(w, c, v) {
      if InActivation(w'.control[0], c, v) {
        assert InActivation(w.control[0], c, v);
      }
    }
  }

  lemma StartChanges(w: World, w1: World, c: Callback, v: Value)
    requires Changes(w, w1, Nothing) && Told(w, c, v) && CallbackExists(c, |w.promises|, |w.frames|)
    requires |w1.frames| == |w.frames|
    requires c.reaction.WakeFrame? || w1.promises[c.reaction.next].status == Pending
    ensures CallbackExists(c, |w1.promises|, |w1.frames|) && Changes(w, StartCallback(w1, c, v), StartChange(c, v))
  {
    var w2 := StartCallback(w1, c, v);
    if c.reaction.WakeFrame? {
      Quiet(w1, StartCallback(w1, c, v));
      QuietThen(w, w1, w2, Nothing);
    } else if StartChange(c, v) == Nothing {
    } else {
      NextChanges(w1, c.reaction.next, v);
      hide Changes, ResolveNext, RejectNext;
      QuietThen(w, w1, w2, StartChange(c, v));
    }
  }

  lemma DeliveryFindsPending(w: World)
    requires Inv(w) && Enabled(w, StepDelivery) && Top(w).rest != [] && !Top(w).rest[0].reaction.WakeFrame?
    ensures OwesSettling(TakeFirst(w), Top(w).rest[0].reaction.next)
  {
    var c := Top(w).rest[0];
    DeliveryAtBottom(w);
    assert CallbackExists(c, |w.promises|, |w.frames|);
    OwnedBalance(w, TargetOf(c.reaction));
    TakeFirstBalance(w, TargetOf(c.reaction));
    HolderFindsPending(TakeFirst(w), c.reaction.next);
  }

  lemma DeliveryChanges(w: World)
    requires Inv(w) && Enabled(w, StepDelivery)
    ensures Changes(w, DeliveryTurn(w), ChangeOf(w, StepDelivery))
  {
    DeliveryAtBottom(w);
    if Top(w).rest == [] {
      Quiet(w, DeliveryTurn(w));
    } else {
      var c := Top(w).rest[0];
      assert CallbackExists(c, |w.promises|, |w.frames|);
      TakeQuiet(w);
      if !c.reaction.WakeFrame? {
        DeliveryFindsPending(w);
      }
      hide Inv, Changes, Balance, Told, WellFormed;
      StartChanges(w, TakeFirst(w), c, Top(w).v);
    }
  }

  lemma MicrotaskChanges(w: World)
    requires WellFormed(w) && Enabled(w, RunMicrotask)
    ensures Changes(w, Apply(w, RunMicrotask), Nothing)
  {
    var j := w.microtasks[0];
    var w' := Apply(w, RunMicrotask);
    if NoCallbacks(j) {
      Quiet(w, w');
    } else {
      hide WellFormed;
      assert j in w.microtasks;
      forall c, v | Told(w', c, v) ensures Told(w, c, v) {
        if InActivation(w'.control[0], c, v) {
          assert InJob(j, c, v);
        }
      }
    }
  }

  lemma RegisterChanges(w: World, f: FrameId, v: Value)
    requires WellFormed(w) && f < |w.frames| && ValueExists(v, w)
    ensures Changes(w, Register(w, f, v),
                    if v.PromiseRef? && w.promises[v.p].status == Pending
                    then Attaching(v.p, WakeFrame(f, false), WakeFrame(f, true)) else Nothing)
  {
    if !v.PromiseRef? || w.promises[v.p].status != Pending {
      Quiet(w, Register(w, f, v));
    } else {
      ReactChanges(Mark(w, v.p), v.p, WakeFrame(f, false), WakeFrame(f, true));
      hide Changes, React, Mark;
      QuietThen(w, Mark(w, v.p), Register(w, f, v), Attaching(v.p, WakeFrame(f, false), WakeFrame(f, true)));
    }
  }

  lemma AwaitChanges(w: World, v: Value)
    requires Enabled(w, Await(v))
    ensures Changes(w, Apply(w, Await(v)), ChangeOf(w, Await(v)))
  {
    TopsExist(w);
    var f := w.callStack[|w.callStack| - 1];
    RegisterChanges(w, f, v);
    RegisterControl(w, f, v);
    var w1 := Register(w, f, v);
    Quiet(w1, Pop(Suspend(w1, f, AwaitedBy(w, v))));
    hide Changes, Register, WellFormed;
  }

  lemma FinishChanges(w: World, fulfil: bool, v: Value)
    requires Enabled(w, FinishAsync(fulfil, v))
    ensures Changes(w, Apply(w, FinishAsync(fulfil, v)), ChangeOf(w, FinishAsync(fulfil, v)))
  {
    TopsExist(w);
    var p := w.frames[Top(w).f].pendingPromise.value;
    GuardedChanges(w, p, v);
    SettleControl(w, p, v);
    hide Changes, FulfillPromise, RejectPromise, WellFormed;
  }

  lemma AttachChanges(w: World, a: Action)
    requires Enabled(w, a) && (a.AttachThen? || a.AttachCatch? || a.AttachFinally?)
    ensures Changes(w, Apply(w, a), ChangeOf(w, a))
  {
    var ch := ChangeOf(w, a);
    var mark := a.AttachCatch? || (a.AttachThen? && a.r.Some?);
    AttachedChanges(w, ch.p, mark, ch.on, ch.onr);
    hide Changes, WellFormed;
  }

  lemma PlainChanges(w: World, a: Action)
    requires Enabled(w, a)
    requires a.StartMacrotask? || a.EndMacrotask? || a.NewPromise? || a.CallSync? || a.ReturnSync? || a.CallAsync?
    ensures Changes(w, Apply(w, a), Nothing)
  {
    Quiet(w, Apply(w, a));
  }

  /** Every step makes the change ChangeOf names and no other: nothing else settles, is attached or is sent out. */
  lemma StepChanges(w: World, a: Action)
    requires Inv(w) && Enabled(w, a)
    ensures Changes(w, Apply(w, a), ChangeOf(w, a))
  {
    hide Changes;
    match a
    case RunMicrotask => MicrotaskChanges(w);
    case StepDelivery => DeliveryChanges(w);
    case Await(v) => AwaitChanges(w, v);
    case FinishAsync(fulfil, v) => FinishChanges(w, fulfil, v);
    case SettleConstructed(p, fulfil, v) => GuardedChanges(w, p, v);
    case CallbackReturns(_) => CallbackStepChanges(w, a);
    case CallbackThrows(_) => CallbackStepChanges(w, a);
    case AttachThen(_, _, _) => AttachChanges(w, a);
    case AttachCatch(_, _) => AttachChanges(w, a);
    case AttachFinally(_, _) => AttachChanges(w, a);
    case _ => PlainChanges(w, a);
  }

  lemma CallbackStepChanges(w: World, a: Action)
    requires Inv(w) && Enabled(w, a) && (a.CallbackReturns? || a.CallbackThrows?)
    ensures Changes(w, Apply(w, a), ChangeOf(w, a))
  {
    CallbackChanges(w, a);
    hide Inv, Changes, FinishCallback;
    QuietThen(w, Pop(w), Apply(w, a), ChangeOf(w, a));
  }

  /** Whatever settles a promise in a step, guarded or not, finds it pending, and leaves it settled so. */
  lemma SettlerFindsPending(w: World, a: Action)
    requires Reachable(w) && Enabled(w, a) && ChangeOf(w, a).Settling?
    ensures var ch := ChangeOf(w, a);
            && ch.p < |w.promises| && w.promises[ch.p].status == Pending && ch.s != Pending
            && ch.p < |Apply(w, a).promises|
            && Apply(w, a).promises[ch.p].status == ch.s && Apply(w, a).promises[ch.p].result == ch.v
  {
    ReachableInv(w);
    StepChanges(w, a);
    hide Inv;
  }

  // ---------- reactions hear the truth ----------

  /** c is told the final result of the promise it was attached to, and c is for that way of ending. */
  ghost predicate Heard(w: World, c: Callback, v: Value) {
    && c.source < |w.promises| && w.promises[c.source].status != Pending
    && w.promises[c.source].result == v && OnSide(c.reaction, w.promises[c.source].status)
  }

  ghost predicate Truthful(w: World) {
    && (forall p, s, c | Listed(w, p, s, c) :: c.source == p && OnSide(c.reaction, s))
    && (forall c, v | Told(w, c, v) :: Heard(w, c, v))
  }

  lemma TruthKept(w: World, w': World, ch: Change)
    requires Truthful(w) && Changes(w, w', ch)
    requires ch.Attaching? ==> OnSide(ch.on, Fulfilled) && OnSide(ch.onr, Rejected)
    ensures Truthful(w')
  {
    hide Listed, Told;
    forall c, v | Told(w', c, v) ensures Heard(w', c, v) {
      if Told(w, c, v) {
        assert Heard(w, c, v);
        assert SameOutcome(w.promises[c.source], w'.promises[c.source]);
      } else {
        assert NewlyTold(w, ch, c, v);
        if ch.Attaching? {
          assert SameOutcome(w.promises[ch.p], w'.promises[ch.p]);
        }
      }
    }
    forall p, s, c | Listed(w', p, s, c) ensures c.source == p && OnSide(c.reaction, s) {
      if !Listed(w, p, s, c) {
        assert NewlyListed(ch, p, s, c);
        ListedSide(w', p, s, c);
      }
    }
  }

  lemma ListedSide(w: World, p: PromiseId, s: Status, c: Callback)
    requires Listed(w, p, s, c)
    ensures s != Pending
  {
  }

  lemma StepTruth(w: World, a: Action)
    requires Inv(w) && Enabled(w, a) && Truthful(w)
    ensures Truthful(Apply(w, a))
  {
    StepChanges(w, a);
    hide Changes, Truthful, Inv;
    TruthKept(w, Apply(w, a), ChangeOf(w, a));
  }

  lemma {:induction false} RunTruth(w: World, actions: seq<Action>, w': World)
    requires Inv(w) && Truthful(w)
    ensures Run(w, actions, w') ==> Truthful(w')
    decreases |actions|
  {
    hide Truthful, Inv;
    if actions != [] && Run(w, actions, w') {
      StepInv(w, actions[0]);
      StepTruth(w, actions[0]);
      RunTruth(Apply(w, actions[0]), actions[1..], w');
    }
  }

  lemma ReachableTruth(w: World)
    requires Reachable(w)
    ensures Inv(w) && Truthful(w)
  {
    var actions :| Run(INIT, actions, w);
    ReachableInv(w);
    assert Truthful(INIT);
    RunTruth(INIT, actions, w);
  }

  // ---------- main results ----------

  /** In every reachable state a reaction on its way, or running, carries the final result of the very promise it was
      attached to, and it is the one of its pair that is for the way that promise ended. */
  lemma ReactionHearsItsPromise(w: World, c: Callback, v: Value)
    requires Reachable(w) && Told(w, c, v)
    ensures Heard(w, c, v)
  {
    ReachableTruth(w);
  }

  /** What a then or catch callback does to the derived promise, which was pending until now: a value fulfils it, a
      promise that has settled gives it its own state and result, an error rejects it. */
  lemma CallbackSettles(w: World, a: Action)
    requires Reachable(w) && Enabled(w, a) && (a.CallbackReturns? || a.CallbackThrows?)
    requires !Top(w).callback.reaction.RunFinally?
    ensures var n := Top(w).callback.reaction.next;
            && OwesSettling(w, n) && n < |Apply(w, a).promises|
            && var x := Apply(w, a).promises[n];
               match a
               case CallbackReturns(PromiseRef(q)) =>
                 w.promises[q].status != Pending ==> SameOutcome(x, w.promises[q])
               case CallbackReturns(v) => x.status == Fulfilled && x.result == v
               case CallbackThrows(error) => x.status == Rejected && x.result == Text(error)
               case _ => false
  {
    ReachableInv(w);
    CallbackChanges(w, a);
    CallbackStepChanges(w, a);
    hide Inv, Told, Listed;
  }

  /** A derived promise whose finally callback has returned or thrown ends exactly as the original promise did. */
  lemma FinallyPassesThrough(w: World, a: Action)
    requires Reachable(w) && Enabled(w, a) && (a.CallbackReturns? || a.CallbackThrows?)
    requires Top(w).callback.reaction.RunFinally?
    ensures var c := Top(w).callback;
            && c.source < |w.promises| && c.reaction.next < |Apply(w, a).promises|
            && w.promises[c.source].status != Pending
            && SameOutcome(Apply(w, a).promises[c.reaction.next], w.promises[c.source])
  {
    ReachableTruth(w);
    StepChanges(w, a);
    TopIsTold(w);
    hide Inv, Told, Listed;
    assert Heard(w, Top(w).callback, Top(w).v);
  }

  lemma TopIsTold(w: World)
    requires w.control != [] && Top(w).InCallback?
    ensures Told(w, Top(w).callback, Top(w).v)
  {
    assert Top(w) in w.control && InActivation(Top(w), Top(w).callback, Top(w).v);
  }

  /** Where no user function applies, the derived promise ends exactly as the original did: a fulfilment passes a
      catch, a rejection passes a then without onRejected, and a promise returned from a callback is adopted. */
  lemma UnhandledPassesThrough(w: World)
    requires Reachable(w) && Enabled(w, StepDelivery) && Top(w).rest != []
    requires StartChange(Top(w).rest[0], Top(w).v).Settling?
    ensures var c, w' := Top(w).rest[0], Apply(w, StepDelivery);
            && c.source < |w.promises| && c.reaction.next < |w'.promises|
            && w.promises[c.source].status != Pending
            && SameOutcome(w'.promises[c.reaction.next], w.promises[c.source])
  {
    ReachableTruth(w);
    StepChanges(w, StepDelivery);
    var c := Top(w).rest[0];
    assert Top(w) in w.control && InActivation(Top(w), c, Top(w).v);
    hide Inv, Listed;
    assert Heard(w, c, Top(w).v);
  }

  // ---------- adoption ----------

  predicate Forwards(r: Reaction) {
    r.ResolveNextLater? || r.RejectNextLater?
  }

  /** Whatever is still to settle n is a forwarder attached to q. */
  ghost predicate OnlyThrough(w: World, n: PromiseId, q: PromiseId) {
    && (forall p, s, c | Listed(w, p, s, c) && TargetOf(c.reaction) == OfPromise(n) ::
          c.source == q && Forwards(c.reaction))
    && (forall c, v | Told(w, c, v) && TargetOf(c.reaction) == OfPromise(n) :: c.source == q && Forwards(c.reaction))
  }

  /** n is a derived promise that q decides. */
  ghost predicate Follows(w: World, n: PromiseId, q: PromiseId) {
    && n < |w.promises| && q < |w.promises| && w.promises[n].origin == Derived
    && if w.promises[n].status == Pending then OnlyThrough(w, n, q)
       else n != q && SameOutcome(w.promises[n], w.promises[q])
  }

  ghost predicate OnlyOld(ch: Change, n: PromiseId) {
    ch.Attaching? ==> TargetOf(ch.on) != OfPromise(n) && TargetOf(ch.onr) != OfPromise(n)
  }

  lemma FollowsKept(w: World, w': World, ch: Change, n: PromiseId, q: PromiseId)
    requires Follows(w, n, q) && Changes(w, w', ch) && OnlyOld(ch, n)
    requires w'.promises[n].origin == Derived
    requires ch.Settling? && ch.p == n ==>
               n != q && w.promises[q].status == ch.s && w.promises[q].result == ch.v
    ensures Follows(w', n, q)
  {
    hide Listed, Told;
    if w'.promises[n].status == Pending {
      assert w.promises[n].status == Pending;
      forall c, v | Told(w', c, v) && TargetOf(c.reaction) == OfPromise(n)
        ensures c.source == q && Forwards(c.reaction)
      {
        if !Told(w, c, v) {
          assert NewlyTold(w, ch, c, v);
        }
      }
      forall p, s, c | Listed(w', p, s, c) && TargetOf(c.reaction) == OfPromise(n)
        ensures c.source == q && Forwards(c.reaction)
      {
        assert Listed(w, p, s, c) || NewlyListed(ch, p, s, c);
      }
    } else if w.promises[n].status == Pending {
      assert ch.Settling? && ch.p == n;
      assert SameOutcome(w.promises[q], w'.promises[q]);
    } else {
      assert SameOutcome(w.promises[n], w'.promises[n]);
      assert SameOutcome(w.promises[q], w'.promises[q]);
    }
  }

  /** A callback in hand belongs to a user function, so it is not what settles a follower. */
  lemma NotInHand(w: World, a: Action, n: PromiseId, q: PromiseId)
    requires Inv(w) && Enabled(w, a) && (a.CallbackReturns? || a.CallbackThrows?) && Follows(w, n, q)
    ensures Top(w).callback.reaction.next != n
  {
    CallbackChanges(w, a);
    TopIsTold(w);
    hide Changes, Told, Listed, Inv;
    assert TargetOf(Top(w).callback.reaction) == OfPromise(Top(w).callback.reaction.next);
  }

  lemma StepAttachesOthers(w: World, a: Action, n: PromiseId, q: PromiseId)
    requires Inv(w) && Enabled(w, a) && Follows(w, n, q)
    ensures OnlyOld(ChangeOf(w, a), n)
  {
    if a.CallbackReturns? || a.CallbackThrows? {
      NotInHand(w, a, n, q);
    }
    hide Inv, Follows;
  }

  /** A follower settles only when the promise it follows has, and as that one did. */
  lemma StepSettlesAlike(w: World, a: Action, n: PromiseId, q: PromiseId)
    requires Inv(w) && Truthful(w) && Enabled(w, a) && Follows(w, n, q)
    requires ChangeOf(w, a).Settling? && ChangeOf(w, a).p == n
    ensures n != q && w.promises[q].status == ChangeOf(w, a).s && w.promises[q].result == ChangeOf(w, a).v
  {
    StepChanges(w, a);
    match a
    case CallbackReturns(_) => NotInHand(w, a, n, q);
    case CallbackThrows(_) => NotInHand(w, a, n, q);
    case FinishAsync(_, _) => TopsExist(w); OfCallPromise(w, Top(w).f);
    case SettleConstructed(_, _, _) =>
    case StepDelivery =>
      var c := Top(w).rest[0];
      assert Top(w) in w.control && InActivation(Top(w), c, Top(w).v);
      hide Inv, Listed, WellFormed;
      assert Told(w, c, Top(w).v) && TargetOf(c.reaction) == OfPromise(n);
      assert Heard(w, c, Top(w).v);
    case _ =>
  }

  lemma StepFollows(w: World, a: Action, n: PromiseId, q: PromiseId)
    requires Inv(w) && Truthful(w) && Enabled(w, a) && Follows(w, n, q)
    ensures Follows(Apply(w, a), n, q)
  {
    StepInv(w, a);
    StepChanges(w, a);
    StepAttachesOthers(w, a, n, q);
    if ChangeOf(w, a).Settling? && ChangeOf(w, a).p == n {
      StepSettlesAlike(w, a, n, q);
    }
    assert Advances(w, Apply(w, a), n);
    hide Inv, Truthful, Changes;
    FollowsKept(w, Apply(w, a), ChangeOf(w, a), n, q);
  }

  lemma {:induction false} RunFollows(w: World, actions: seq<Action>, w': World, n: PromiseId, q: PromiseId)
    requires Inv(w) && Truthful(w) && Follows(w, n, q)
    ensures Run(w, actions, w') ==> Inv(w') && Truthful(w') && Follows(w', n, q)
    decreases |actions|
  {
    hide Inv, Truthful, Follows;
    if actions != [] && Run(w, actions, w') {
      StepInv(w, actions[0]);
      StepTruth(w, actions[0]);
      StepFollows(w, actions[0], n, q);
      RunFollows(Apply(w, actions[0]), actions[1..], w', n, q);
    }
  }

  /** A promise nobody is to settle is the target of nothing that is told or listed. */
  lemma NothingOutstanding(w: World, t: Target)
    requires Outstanding(w, t) == 0 && AllPaired(w)
    ensures forall p, s, c | Listed(w, p, s, c) :: TargetOf(c.reaction) != t
    ensures forall c, v | Told(w, c, v) :: TargetOf(c.reaction) != t
  {
    forall p: PromiseId, s, c | Listed(w, p, s, c) ensures TargetOf(c.reaction) != t {
      var x := w.promises[p];
      assert Paired(x, p);
      var cs := if s == Fulfilled then x.thenCallbacks else x.catchCallbacks;
      var i :| 0 <= i < |cs| && cs[i] == c;
      if TargetOf(c.reaction) == t {
        assert x.thenCallbacks[i] in x.thenCallbacks;
        NoHitNoCallback(x.thenCallbacks, t, x.thenCallbacks[i]);
        NoHitNoPromise(w.promises, t, p);
        assert false;
      }
    }
    forall c, v | Told(w, c, v) ensures TargetOf(c.reaction) != t {
      if TargetOf(c.reaction) == t {
        ToldIsOutstanding(w, t, c, v);
        assert false;
      }
    }
  }

  lemma ToldIsOutstanding(w: World, t: Target, c: Callback, v: Value)
    requires Told(w, c, v) && TargetOf(c.reaction) == t
    ensures Outstanding(w, t) > 0
  {
    if j :| j in w.microtasks && InJob(j, c, v) {
      NoHitNoCallback(j.callbacks, t, c);
      NoHitNoJob(w.microtasks, t, j);
    } else {
      var a :| a in w.control && InActivation(a, c, v);
      if a.Delivering? {
        NoHitNoCallback(a.rest, t, c);
      }
      NoHitNoActivation(w.control, t, a);
    }
  }

  /** A then or catch callback has returned the pending promise q: from then on q decides. */
  lemma FollowsFromReturn(w: World, q: PromiseId)
    requires Inv(w) && Enabled(w, CallbackReturns(PromiseRef(q))) && w.promises[q].status == Pending
    requires !Top(w).callback.reaction.RunFinally?
    ensures Follows(Apply(w, CallbackReturns(PromiseRef(q))), Top(w).callback.reaction.next, q)
  {
    var a := CallbackReturns(PromiseRef(q));
    var n := Top(w).callback.reaction.next;
    var w1, w' := Pop(w), Apply(w, a);
    CallbackChanges(w, a);
    ReadyToFinish(w, a);
    StepInv(w, a);
    assert Advances(w, w', n);
    NothingOutstanding(w1, OfPromise(n));
    hide Inv, Told, Listed, Balance, AllPaired, Advances;
    assert SameOutcome(w1.promises[n], w'.promises[n]);
    forall c, v | Told(w', c, v) ensures TargetOf(c.reaction) != OfPromise(n) {
      assert Told(w1, c, v) || NewlyTold(w1, ChangeOf(w, a), c, v);
    }
    forall p, s, c | Listed(w', p, s, c) && TargetOf(c.reaction) == OfPromise(n)
      ensures c.source == q && Forwards(c.reaction)
    {
      assert Listed(w1, p, s, c) || NewlyListed(ChangeOf(w, a), p, s, c);
    }
  }

  /** A run begins with a then or catch callback returning the pending promise q. Wherever it leads, the derived
      promise n settles only after q, with q's state and result; once the system is idle it has settled if q has. When
      q is n itself, n stays pending for ever. */
  lemma Adopts(w: World, q: PromiseId, actions: seq<Action>, w': World)
    requires Reachable(w) && Run(w, actions, w') && actions != [] && actions[0] == CallbackReturns(PromiseRef(q))
    ensures w.promises[q].status == Pending && !Top(w).callback.reaction.RunFinally? ==>
            var n := Top(w).callback.reaction.next;
            && n < |w'.promises| && q < |w'.promises|
            && (w'.promises[n].status != Pending ==> n != q && SameOutcome(w'.promises[n], w'.promises[q]))
            && (w'.microtasks == [] && w'.control == [] && w'.promises[q].status != Pending ==>
                  SameOutcome(w'.promises[n], w'.promises[q]))
  {
    if w.promises[q].status != Pending || Top(w).callback.reaction.RunFinally? { return; }
    var n := Top(w).callback.reaction.next;
    ReachableTruth(w);
    FollowsFromReturn(w, q);
    StepInv(w, actions[0]);
    StepTruth(w, actions[0]);
    RunFollows(Apply(w, actions[0]), actions[1..], w', n, q);
    if w'.microtasks == [] && w'.control == [] && w'.promises[n].status == Pending {
      IdleFollower(w', n, q);
    }
  }

  lemma IdleFollower(w: World, n: PromiseId, q: PromiseId)
    requires Inv(w) && Truthful(w) && Follows(w, n, q) && w.microtasks == [] && w.control == []
    requires w.promises[n].status == Pending
    ensures w.promises[q].status == Pending
  {
    var t := OfPromise(n);
    assert Outstanding(w, t) == Expected(w, t) == 1;
    HitIsSomewhere(w.promises, t);
    var p :| 0 <= p < |w.promises| && PromiseHits(w.promises[p], t) > 0;
    var c := SomeHit(w.promises[p].thenCallbacks, t);
    assert Listed(w, p, Fulfilled, c);
  }

  lemma {:induction false} SomeHit(cs: seq<Callback>, t: Target) returns (c: Callback)
    requires CallbackHits(cs, t) > 0
    ensures c in cs && TargetOf(c.reaction) == t
  {
    if TargetOf(cs[0].reaction) == t {
      c := cs[0];
    } else {
      c := SomeHit(cs[1..], t);
    }
  }
}
