/** Every obligation has exactly one owner.

    A pending promise made by then, catch or finally has exactly one outstanding reaction that will settle it, and
    a suspended frame exactly one that will wake it, wherever in the system that reaction is: on the callback
    lists of a pending promise, in a queued microtask, in a loop under way, or in a callback waiting for user code. */
module AsyncOwnership {
  import opened Wrappers
  import opened AsyncMachine
  import opened AsyncWellFormed

  // ---------- the outstanding reactions aimed at t, counted ----------

  ghost function Hit(r: Reaction, t: Target): nat {
    if TargetOf(r) == t then 1 else 0
  }

  ghost function CallbackHits(cs: seq<Callback>, t: Target): nat {
    if cs == [] then 0 else Hit(cs[0].reaction, t) + CallbackHits(cs[1..], t)
  }

  ghost function JobHits(j: Job, t: Target): nat {
    match j
    case Deliver(cs, _) => CallbackHits(cs, t)
    case DeliverRejection(_, cs, _) => CallbackHits(cs, t)
    case CheckUnhandled(_) => 0
    case Resume(f) => if t == OfFrame(f) then 1 else 0
  }

  ghost function QueueHits(q: seq<Job>, t: Target): nat {
    if q == [] then 0 else JobHits(q[0], t) + QueueHits(q[1..], t)
  }

  ghost function ActivationHits(a: Activation, t: Target): nat {
    match a
    case Delivering(rest, _, _) => CallbackHits(rest, t)
    case InCallback(c, _) => Hit(c.reaction, t)
    case _ => 0
  }

  ghost function ControlHits(c: seq<Activation>, t: Target): nat {
    if c == [] then 0 else ControlHits(c[..|c| - 1], t) + ActivationHits(c[|c| - 1], t)
  }

  /** The two lists of a pending promise hold one pair per reaction; the pair counts once. */
  ghost function PromiseHits(x: Promise, t: Target): nat {
    if x.status == Pending then CallbackHits(x.thenCallbacks, t) else 0
  }

  ghost function HeapHits(ps: seq<Promise>, t: Target): nat {
    if ps == [] then 0 else HeapHits(ps[..|ps| - 1], t) + PromiseHits(ps[|ps| - 1], t)
  }

  ghost function Outstanding(w: World, t: Target): nat {
    QueueHits(w.microtasks, t) + ControlHits(w.control, t) + HeapHits(w.promises, t)
  }

  ghost function Count(s: seq<FrameId>, f: FrameId): nat {
    if s == [] then 0 else One(s[0] == f) + Count(s[1..], f)
  }

  ghost function One(b: bool): nat {
    if b then 1 else 0
  }

  lemma {:induction false} CountIn(s: seq<FrameId>, f: FrameId)
    ensures f in s <==> Count(s, f) > 0
  {
    if s != [] {
      CountIn(s[1..], f);
    }
  }

  lemma {:induction false} CountAppend(s: seq<FrameId>, g: FrameId, f: FrameId)
    ensures Count(s + [g], f) == Count(s, f) + One(f == g)
  {
    if s != [] {
      CountAppend(s[1..], g, f);
      assert (s + [g])[1..] == s[1..] + [g];
    }
  }

  lemma {:induction false} CountRemove(s: seq<FrameId>, g: FrameId, f: FrameId)
    ensures Count(Remove(s, g), f) == Count(s, f) - One(f == g && g in s)
  {
    if s != [] && s[0] != g {
      CountRemove(s[1..], g, f);
      assert Remove(s, g)[1..] == Remove(s[1..], g);
    }
  }

  ghost predicate OwesSettling(w: World, p: PromiseId) {
    p < |w.promises| && w.promises[p].origin == Derived && w.promises[p].status == Pending
  }

  ghost function Expected(w: World, t: Target): nat {
    match t
    case OfPromise(p) => if OwesSettling(w, p) then 1 else 0
    case OfFrame(f) => Count(w.suspendedFrames, f)
  }

  ghost predicate Owned(w: World) {
    forall t :: Outstanding(w, t) == Expected(w, t)
  }

  // ---------- how counts change ----------

  lemma {:induction false} CallbackHitsAppend(cs: seq<Callback>, c: Callback, t: Target)
    ensures CallbackHits(cs + [c], t) == CallbackHits(cs, t) + Hit(c.reaction, t)
  {
    if cs != [] {
      CallbackHitsAppend(cs[1..], c, t);
      assert (cs + [c])[1..] == cs[1..] + [c];
    }
  }

  lemma {:induction false} QueueHitsAppend(q: seq<Job>, j: Job, t: Target)
    ensures QueueHits(q + [j], t) == QueueHits(q, t) + JobHits(j, t)
  {
    if q != [] {
      QueueHitsAppend(q[1..], j, t);
      assert (q + [j])[1..] == q[1..] + [j];
    }
  }

  lemma {:induction false} HeapHitsUpdate(ps: seq<Promise>, p: PromiseId, x: Promise, t: Target)
    requires p < |ps|
    ensures HeapHits(ps[p := x], t) + PromiseHits(ps[p], t) == HeapHits(ps, t) + PromiseHits(x, t)
  {
    var last := |ps| - 1;
    if p == last {
      assert ps[p := x][..last] == ps[..last];
    } else {
      HeapHitsUpdate(ps[..last], p, x, t);
      assert ps[p := x][..last] == ps[..last][p := x];
    }
  }

  lemma {:induction false} HeapHitsMark(ps: seq<Promise>, qs: seq<Promise>, t: Target)
    requires OnlyHandledGrows(ps, qs)
    ensures HeapHits(qs, t) == HeapHits(ps, t)
  {
    if ps != [] {
      var last := |ps| - 1;
      HeapHitsMark(ps[..last], qs[..last], t);
      assert qs[last] == ps[last].(handled := qs[last].handled);
    }
  }

  // ---------- what is found is counted ----------

  lemma {:induction false} NoHitNoCallback(cs: seq<Callback>, t: Target, c: Callback)
    requires c in cs && TargetOf(c.reaction) == t
    ensures CallbackHits(cs, t) > 0
  {
    if cs[0] != c {
      NoHitNoCallback(cs[1..], t, c);
    }
  }

  lemma {:induction false} NoHitNoJob(q: seq<Job>, t: Target, j: Job)
    requires j in q && JobHits(j, t) > 0
    ensures QueueHits(q, t) > 0
  {
    if q[0] != j {
      NoHitNoJob(q[1..], t, j);
    }
  }

  lemma {:induction false} NoHitNoActivation(s: seq<Activation>, t: Target, a: Activation)
    requires a in s && ActivationHits(a, t) > 0
    ensures ControlHits(s, t) > 0
  {
    if s[|s| - 1] != a {
      NoHitNoActivation(s[..|s| - 1], t, a);
    }
  }

  lemma {:induction false} NoHitNoPromise(ps: seq<Promise>, t: Target, p: PromiseId)
    requires p < |ps| && PromiseHits(ps[p], t) > 0
    ensures HeapHits(ps, t) > 0
  {
    if p < |ps| - 1 {
      NoHitNoPromise(ps[..|ps| - 1], t, p);
    }
  }

  // ---------- what each part of a step does to the balance of t ----------

  /** Outstanding reactions aimed at t, less those expected. */
  ghost function Balance(w: World, t: Target): int {
    Outstanding(w, t) - Expected(w, t)
  }

  lemma EnqueueBalance(w: World, j: Job, t: Target)
    ensures Balance(Enqueue(w, j), t) == Balance(w, t) + JobHits(j, t)
  {
    QueueHitsAppend(w.microtasks, j, t);
  }

  lemma PushBalance(w: World, a: Activation, t: Target)
    ensures Balance(Push(w, a), t) == Balance(w, t) + ActivationHits(a, t)
  {
  }

  lemma PopBalance(w: World, t: Target)
    requires w.control != []
    ensures Balance(Pop(w), t) == Balance(w, t) - ActivationHits(Top(w), t)
  {
  }

  lemma AddBalance(w: World, x: Promise, t: Target)
    requires x.thenCallbacks == []
    ensures Balance(AddPromise(w, x), t) ==
            Balance(w, t) - One(t == OfPromise(|w.promises|) && x.origin == Derived && x.status == Pending)
  {
  }

  lemma MarkBalance(w: World, p: PromiseId, t: Target)
    requires p < |w.promises| && ParentsExist(w.promises)
    ensures Balance(Mark(w, p), t) == Balance(w, t)
  {
    var w' := Mark(w, p);
    HeapHitsMark(w.promises, w'.promises, t);
    if t.OfPromise? && t.p < |w.promises| {
      assert w'.promises[t.p] == w.promises[t.p].(handled := w'.promises[t.p].handled);
    }
  }

  lemma SetBalance(w: World, p: PromiseId, x: Promise, t: Target)
    requires p < |w.promises|
    requires x.status == w.promises[p].status && x.origin == w.promises[p].origin
    requires x.thenCallbacks == w.promises[p].thenCallbacks
    ensures Balance(SetPromise(w, p, x), t) == Balance(w, t)
  {
    HeapHitsUpdate(w.promises, p, x, t);
  }

  /** Attaching a pair puts one reaction into the system, whatever the state of the promise. */
  lemma ReactBalance(w: World, p: PromiseId, on: Reaction, onr: Reaction, t: Target)
    requires p < |w.promises| && TargetOf(on) == TargetOf(onr)
    ensures Balance(React(w, p, on, onr), t) == Balance(w, t) + Hit(on, t)
  {
    var x := w.promises[p];
    var c0, c1 := Callback(p, x.attached, on), Callback(p, x.attached, onr);
    HeapHitsUpdate(w.promises, p, React(w, p, on, onr).promises[p], t);
    assert CallbackHits([c0], t) == Hit(on, t) == CallbackHits([c1], t);
    match x.status {
      case Pending => CallbackHitsAppend(x.thenCallbacks, c0, t);
      case Fulfilled => QueueHitsAppend(w.microtasks, Deliver([c0], x.result), t);
      case Rejected => QueueHitsAppend(w.microtasks, Deliver([c1], x.result), t);
    }
  }

  ghost predicate Paired(x: Promise, p: PromiseId) {
    x.status == Pending ==>
      && |x.thenCallbacks| == |x.catchCallbacks| == x.attached
      && forall i | 0 <= i < x.attached ::
           && x.thenCallbacks[i].source == x.catchCallbacks[i].source == p
           && x.thenCallbacks[i].ticket == x.catchCallbacks[i].ticket == i
           && TargetOf(x.thenCallbacks[i].reaction) == TargetOf(x.catchCallbacks[i].reaction)
  }

  ghost predicate AllPaired(w: World) {
    forall p | 0 <= p < |w.promises| :: Paired(w.promises[p], p)
  }

  lemma {:induction false} SameHits(cs: seq<Callback>, ds: seq<Callback>, t: Target)
    requires |cs| == |ds|
    requires forall i | 0 <= i < |cs| :: TargetOf(cs[i].reaction) == TargetOf(ds[i].reaction)
    ensures CallbackHits(cs, t) == CallbackHits(ds, t)
  {
    if cs != [] {
      SameHits(cs[1..], ds[1..], t);
    }
  }

  /** Settling a pending promise moves its reactions into the queue and, if it is derived, ends what is owed to it. */
  lemma SettleBalance(w: World, p: PromiseId, status: Status, v: Value, job: Job, t: Target)
    requires p < |w.promises| && Paired(w.promises[p], p) && w.promises[p].status == Pending && status != Pending
    requires job == Deliver(w.promises[p].thenCallbacks, v) || job == Deliver(w.promises[p].catchCallbacks, v)
          || job == DeliverRejection(p, w.promises[p].catchCallbacks, v)
    ensures Balance(Settle(w, p, status, v, job), t) ==
            Balance(w, t) + One(t == OfPromise(p) && w.promises[p].origin == Derived)
  {
    SameHits(w.promises[p].thenCallbacks, w.promises[p].catchCallbacks, t);
    HeapHitsUpdate(w.promises, p, w.promises[p].(status := status, result := v), t);
    QueueHitsAppend(w.microtasks, job, t);
  }

  // ---------- frames ----------

  ghost function Bodies(c: seq<Activation>): seq<FrameId> {
    if c == [] then []
    else
      var a := c[|c| - 1];
      Bodies(c[..|c| - 1]) + if a.AsyncBody? || a.SyncBody? then [a.f] else []
  }

  /** A loop over callbacks or a macrotask is only ever at the bottom of the native stack. */
  ghost predicate Shaped(c: seq<Activation>) {
    && (forall i | 0 < i < |c| :: !c[i].Delivering? && !c[i].Macrotask?)
    && (forall i | 0 <= i < |c| :: c[i].InCallback? ==> RunsUserFunction(c[i].callback.reaction))
  }

  ghost predicate StackMirrors(w: World) {
    w.callStack == Bodies(w.control) && Shaped(w.control)
  }

  /** A frame is at most once on the call stack or among the suspended frames. */
  ghost predicate OncePlaced(w: World, f: FrameId) {
    Count(w.callStack, f) + Count(w.suspendedFrames, f) <= 1
  }

  ghost predicate FrameOk(w: World, f: FrameId)
    requires f < |w.frames|
  {
    && (w.frames[f].isSuspended <==> f in w.suspendedFrames)
    && (f in w.suspendedFrames || AsyncBody(f) in w.control ==> w.frames[f].pendingPromise.Some?)
    && (w.frames[f].pendingPromise.Some? ==>
          var p := w.frames[f].pendingPromise.value; p < |w.promises| && w.promises[p].origin == OfCall)
  }

  ghost predicate FramesOk(w: World) {
    && StackMirrors(w)
    && (forall f :: OncePlaced(w, f))
    && (forall f | 0 <= f < |w.frames| :: FrameOk(w, f))
  }

  lemma SuspendBalance(w: World, f: FrameId, a: Awaited, t: Target)
    requires f < |w.frames|
    ensures Balance(Suspend(w, f, a), t) == Balance(w, t) - One(t == OfFrame(f))
  {
    if t.OfFrame? {
      CountAppend(w.suspendedFrames, f, t.f);
    }
  }

  lemma ResumeBalance(w: World, f: FrameId, t: Target)
    requires f < |w.frames| && f in w.suspendedFrames
    ensures Balance(ResumeFrame(w, f), t) == Balance(w, t) + One(t == OfFrame(f))
  {
    if t.OfFrame? {
      CountRemove(w.suspendedFrames, f, t.f);
    }
  }

  // ---------- the invariant and the steps ----------

  ghost predicate Inv(w: World) {
    WellFormed(w) && AllPaired(w) && FramesOk(w) && Owned(w)
  }

  lemma AwaitBalance(w: World, f: FrameId, v: Value, t: Target)
    requires f < |w.frames| && ValueExists(v, w) && WellFormed(w)
    ensures Balance(AwaitIn(w, f, v), t) == Balance(w, t)
  {
    if !v.PromiseRef? {
      var x := FreshPromise(None, Constructed).(status := Fulfilled, result := v);
      AddBalance(w, x, t);
      EnqueueBalance(AddPromise(w, x), Resume(f), t);
    } else {
      MarkBalance(w, v.p, t);
      EnqueueBalance(if w.promises[v.p].status == Fulfilled then w else Mark(w, v.p), Resume(f), t);
      if w.promises[v.p].status == Pending {
        ReactBalance(Mark(w, v.p), v.p, WakeFrame(f, false), WakeFrame(f, true), t);
      }
    }
    SuspendBalance(Register(w, f, v), f, AwaitedBy(w, v), t);
  }

  /** The settling closures do not test the state. They need not: whoever runs one finds its promise pending. */
  lemma HolderFindsPending(w: World, n: PromiseId)
    requires Balance(w, OfPromise(n)) == -1
    ensures OwesSettling(w, n)
  {
  }

  lemma SettleNextBalance(w: World, n: PromiseId, v: Value, t: Target)
    requires n < |w.promises| && Paired(w.promises[n], n) && Balance(w, OfPromise(n)) == -1
    ensures Balance(ResolveNext(w, n, v), t) == Balance(w, t) + One(t == OfPromise(n))
    ensures Balance(RejectNext(w, n, v), t) == Balance(w, t) + One(t == OfPromise(n))
  {
    HolderFindsPending(w, n);
    SettleBalance(w, n, Fulfilled, v, Deliver(w.promises[n].thenCallbacks, v), t);
    SettleBalance(w, n, Rejected, v, Deliver(w.promises[n].catchCallbacks, v), t);
  }

  lemma SettleGuardedBalance(w: World, p: PromiseId, v: Value, t: Target)
    requires p < |w.promises| && Paired(w.promises[p], p) && w.promises[p].origin != Derived
    ensures Balance(FulfillPromise(w, p, v), t) == Balance(w, t) == Balance(RejectPromise(w, p, v), t)
  {
    if w.promises[p].status == Pending {
      SettleBalance(w, p, Fulfilled, v, Deliver(w.promises[p].thenCallbacks, v), t);
      SettleBalance(w, p, Rejected, v, DeliverRejection(p, w.promises[p].catchCallbacks, v), t);
    }
  }

  lemma ChainBalance(w: World, n: PromiseId, res: Value, t: Target)
    requires n < |w.promises| && ValueExists(res, w) && Paired(w.promises[n], n) && Balance(w, OfPromise(n)) == -1
    ensures Balance(Chain(w, n, res), t) == Balance(w, t) + One(t == OfPromise(n))
  {
    if res.PromiseRef? && w.promises[res.p].status == Pending {
      ReactBalance(w, res.p, ResolveNextLater(n), RejectNextLater(n), t);
      var w1 := React(w, res.p, ResolveNextLater(n), RejectNextLater(n));
      SetBalance(w1, res.p, w1.promises[res.p].(parent := Some(n)), t);
    } else {
      SettleNextBalance(w, n, if res.PromiseRef? then w.promises[res.p].result else res, t);
    }
  }

  lemma FinishCallbackBalance(w: World, c: Callback, v: Value, res: Option<Value>, error: string, t: Target)
    requires CallbackExists(c, |w.promises|, |w.frames|) && (res.Some? ==> ValueExists(res.value, w))
    requires RunsUserFunction(c.reaction) && AllPaired(w) && Balance(w, TargetOf(c.reaction)) == -1
    ensures Balance(FinishCallback(w, c, v, res, error), t) == Balance(w, t) + Hit(c.reaction, t)
  {
    var n := c.reaction.next;
    if c.reaction.RunFinally? {
      SettleNextBalance(w, n, v, t);
    } else if res.Some? {
      ChainBalance(w, n, res.value, t);
    } else {
      SettleNextBalance(w, n, Text(error), t);
    }
  }

  lemma StampBalance(w: World, f: FrameId, s: Stamp, t: Target)
    requires f < |w.frames|
    ensures Balance(StampFrame(w, f, s), t) == Balance(w, t)
  {
  }

  lemma StartCallbackBalance(w: World, c: Callback, v: Value, t: Target)
    requires CallbackExists(c, |w.promises|, |w.frames|) && AllPaired(w)
    requires c.reaction.WakeFrame? || Balance(w, TargetOf(c.reaction)) == -1
    ensures Balance(StartCallback(w, c, v), t) == Balance(w, t) + Hit(c.reaction, t)
  {
    hide Balance;
    match c.reaction
    case WakeFrame(f, threw) =>
      var w1 := StampFrame(w, f, Stamped(threw, v));
      StampBalance(w, f, Stamped(threw, v), t);
      EnqueueBalance(w1, Resume(f), t);
    case ResolveNextLater(n) => SettleNextBalance(w, n, v, t);
    case RejectNextLater(n) => SettleNextBalance(w, n, v, t);
    case RunThen(n, _, r, was) =>
      if was && r.None? { SettleNextBalance(w, n, v, t); } else { PushBalance(w, InCallback(c, v), t); }
    case _ => PushBalance(w, InCallback(c, v), t);
  }

  lemma TakeFirstBalance(w: World, t: Target)
    requires WellFormed(w) && w.control != [] && Top(w).Delivering? && Top(w).rest != []
    ensures Balance(TakeFirst(w), t) == Balance(w, t) - Hit(Top(w).rest[0].reaction, t)
  {
    var Delivering(rest, v, check) := Top(w);
    assert CallbackExists(rest[0], |w.promises|, |w.frames|);
    var w1 := Push(Pop(w), Delivering(rest[1..], v, check));
    PopBalance(w, t);
    PushBalance(Pop(w), Delivering(rest[1..], v, check), t);
    SetBalance(w1, rest[0].source, TakeFirst(w).promises[rest[0].source], t);
  }

  lemma TakeFirstPaired(w: World)
    requires WellFormed(w) && AllPaired(w) && w.control != [] && Top(w).Delivering? && Top(w).rest != []
    ensures AllPaired(TakeFirst(w))
  {
    assert CallbackExists(Top(w).rest[0], |w.promises|, |w.frames|);
  }

  lemma EndDeliveryBalance(w: World, t: Target)
    requires WellFormed(w) && w.control != [] && Top(w).Delivering? && Top(w).rest == []
    ensures Balance(DeliveryTurn(w), t) == Balance(w, t)
  {
    var check := Top(w).check;
    PopBalance(w, t);
    if check.Some? && !w.promises[check.value].checkScheduled {
      var x := w.promises[check.value].(checkScheduled := true);
      SetBalance(Pop(w), check.value, x, t);
      EnqueueBalance(SetPromise(Pop(w), check.value, x), CheckUnhandled(check.value), t);
    }
  }

  lemma OwnedBalance(w: World, t: Target)
    requires Inv(w)
    ensures Balance(w, t) == 0
  {
  }

  lemma DeliveryBalance(w: World, t: Target)
    requires Inv(w) && Enabled(w, StepDelivery)
    ensures Balance(DeliveryTurn(w), t) == 0
  {
    OwnedBalance(w, t);
    hide Balance, Owned, FramesOk;
    if Top(w).rest == [] {
      EndDeliveryBalance(w, t);
    } else {
      var c := Top(w).rest[0];
      assert CallbackExists(c, |w.promises|, |w.frames|);
      OwnedBalance(w, TargetOf(c.reaction));
      TakeFirstBalance(w, t);
      TakeFirstBalance(w, TargetOf(c.reaction));
      TakeFirstPaired(w);
      StartCallbackBalance(TakeFirst(w), c, Top(w).v, t);
    }
  }

  // ---------- what no step may do to a promise ----------

  /** A settled promise is frozen: state, result and callback lists; a pending one keeps its lists paired. */
  ghost predicate Advance(x: Promise, y: Promise, p: PromiseId) {
    && (x.status != Pending ==>
          && y.status == x.status && y.result == x.result
          && y.thenCallbacks == x.thenCallbacks && y.catchCallbacks == x.catchCallbacks)
    && (Paired(x, p) ==> Paired(y, p))
    && y.origin == x.origin
    && (x.handled ==> y.handled)
  }

  ghost predicate Advances(w: World, w': World, p: PromiseId) {
    && |w.promises| <= |w'.promises|
    && (p < |w.promises| ==> Advance(w.promises[p], w'.promises[p], p))
    && (|w.promises| <= p < |w'.promises| ==> Paired(w'.promises[p], p))
  }

  lemma MarkAdvances(w: World, q: PromiseId, p: PromiseId)
    requires q < |w.promises| && ParentsExist(w.promises)
    ensures Advances(w, Mark(w, q), p)
  {
    if p < |w.promises| {
      assert Mark(w, q).promises[p] == w.promises[p].(handled := Mark(w, q).promises[p].handled);
    }
  }

  lemma ReactAdvances(w: World, q: PromiseId, on: Reaction, onr: Reaction, p: PromiseId)
    requires q < |w.promises| && TargetOf(on) == TargetOf(onr)
    ensures Advances(w, React(w, q, on, onr), p)
  {
  }

  lemma SettleNextAdvances(w: World, n: PromiseId, v: Value, p: PromiseId)
    requires n < |w.promises| && Balance(w, OfPromise(n)) == -1
    ensures Advances(w, ResolveNext(w, n, v), p) && Advances(w, RejectNext(w, n, v), p)
  {
    HolderFindsPending(w, n);
  }

  lemma FinishCallbackAdvances(w: World, c: Callback, v: Value, res: Option<Value>, error: string, p: PromiseId)
    requires CallbackExists(c, |w.promises|, |w.frames|) && (res.Some? ==> ValueExists(res.value, w))
    requires RunsUserFunction(c.reaction) && Balance(w, TargetOf(c.reaction)) == -1
    ensures Advances(w, FinishCallback(w, c, v, res, error), p)
  {
    var n := c.reaction.next;
    hide Balance;
    if c.reaction.RunFinally? {
      SettleNextAdvances(w, n, v, p);
    } else if res.None? {
      SettleNextAdvances(w, n, Text(error), p);
    } else if res.value.PromiseRef? {
      var q := res.value.p;
      SettleNextAdvances(w, n, w.promises[q].result, p);
      if w.promises[q].status == Pending {
        ReactAdvances(w, q, ResolveNextLater(n), RejectNextLater(n), p);
      }
    } else {
      SettleNextAdvances(w, n, res.value, p);
    }
  }

  lemma AwaitAdvances(w: World, f: FrameId, v: Value, p: PromiseId)
    requires f < |w.frames| && ValueExists(v, w) && WellFormed(w)
    ensures Advances(w, AwaitIn(w, f, v), p)
  {
    if !v.PromiseRef? {
    } else {
      MarkAdvances(w, v.p, p);
      if w.promises[v.p].status == Pending {
        ReactAdvances(Mark(w, v.p), v.p, WakeFrame(f, false), WakeFrame(f, true), p);
      }
    }
  }

  lemma StartCallbackAdvances(w: World, c: Callback, v: Value, p: PromiseId)
    requires CallbackExists(c, |w.promises|, |w.frames|)
    requires c.reaction.WakeFrame? || Balance(w, TargetOf(c.reaction)) == -1
    ensures Advances(w, StartCallback(w, c, v), p)
  {
    if !c.reaction.WakeFrame? {
      HolderFindsPending(w, c.reaction.next);
    }
    hide Balance;
  }

  lemma TakeFirstAdvances(w: World, p: PromiseId)
    requires WellFormed(w) && w.control != [] && Top(w).Delivering? && Top(w).rest != []
    ensures Advances(w, TakeFirst(w), p)
  {
    assert CallbackExists(Top(w).rest[0], |w.promises|, |w.frames|);
  }

  lemma DeliveryAdvances(w: World, p: PromiseId)
    requires Inv(w) && Enabled(w, StepDelivery)
    ensures Advances(w, DeliveryTurn(w), p)
  {
    if Top(w).rest != [] {
      var c := Top(w).rest[0];
      assert CallbackExists(c, |w.promises|, |w.frames|);
      OwnedBalance(w, TargetOf(c.reaction));
      TakeFirstBalance(w, TargetOf(c.reaction));
      hide Balance, Owned, FramesOk, AllPaired, WellFormed, Advance, Paired, StartCallback, TakeFirst;
      TakeFirstAdvances(w, p);
      StartCallbackAdvances(TakeFirst(w), c, Top(w).v, p);
    }
  }
}
