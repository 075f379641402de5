/** Reactions of one promise run at most once and in the order they were attached, and when the system is idle each
    reaction of a settled promise has run. */
module AsyncOrder {
  import opened Wrappers
  import opened AsyncMachine
  import opened AsyncWellFormed
  import opened AsyncOwnership
  import opened AsyncSafety

  function Iota(n: nat): seq<nat> {
    seq(n, i => i)
  }

  /** The tickets of p among the callbacks, in their order. */
  ghost function Tickets(cs: seq<Callback>, p: PromiseId): seq<nat> {
    if cs == [] then [] else (if cs[0].source == p then [cs[0].ticket] else []) + Tickets(cs[1..], p)
  }

  ghost function JobTickets(j: Job, p: PromiseId): seq<nat> {
    match j
    case Deliver(cs, _) => Tickets(cs, p)
    case DeliverRejection(_, cs, _) => Tickets(cs, p)
    case _ => []
  }

  ghost function QueueTickets(q: seq<Job>, p: PromiseId): seq<nat> {
    if q == [] then [] else JobTickets(q[0], p) + QueueTickets(q[1..], p)
  }

  /** Only the bottom of the native stack can hold a loop over callbacks. */
  ghost function ControlTickets(c: seq<Activation>, p: PromiseId): seq<nat> {
    if c != [] && c[0].Delivering? then Tickets(c[0].rest, p) else []
  }

  ghost function Record(w: World, p: PromiseId): Promise {
    if p < |w.promises| then w.promises[p] else FreshPromise(None, Constructed)
  }

  /** The reactions of p that have run, followed by those on their way, in the order they will run. */
  ghost function Line(w: World, p: PromiseId): seq<nat> {
    Record(w, p).ran + ControlTickets(w.control, p) + QueueTickets(w.microtasks, p)
  }

  ghost predicate InLine(w: World, p: PromiseId) {
    Line(w, p) == if Record(w, p).status == Pending then [] else Iota(Record(w, p).attached)
  }

  // ---------- how the line changes ----------

  lemma {:induction false} QueueTicketsAppend(q: seq<Job>, j: Job, p: PromiseId)
    ensures QueueTickets(q + [j], p) == QueueTickets(q, p) + JobTickets(j, p)
  {
    if q != [] {
      QueueTicketsAppend(q[1..], j, p);
      assert (q + [j])[1..] == q[1..] + [j];
    }
  }

  lemma {:induction false} TicketsOfList(cs: seq<Callback>, q: PromiseId, p: PromiseId)
    requires forall i | 0 <= i < |cs| :: cs[i].source == q
    ensures p != q ==> Tickets(cs, p) == []
    ensures p == q ==> |Tickets(cs, p)| == |cs| && forall i | 0 <= i < |cs| :: Tickets(cs, p)[i] == cs[i].ticket
  {
    if cs != [] {
      TicketsOfList(cs[1..], q, p);
    }
  }

  lemma EnqueueLine(w: World, j: Job, p: PromiseId)
    ensures Line(Enqueue(w, j), p) == Line(w, p) + JobTickets(j, p)
  {
    QueueTicketsAppend(w.microtasks, j, p);
  }

  lemma SettleInLine(w: World, q: PromiseId, status: Status, v: Value, job: Job, p: PromiseId)
    requires q < |w.promises| && Paired(w.promises[q], q) && w.promises[q].status == Pending && status != Pending
    requires job == Deliver(w.promises[q].thenCallbacks, v) || job == Deliver(w.promises[q].catchCallbacks, v)
          || job == DeliverRejection(q, w.promises[q].catchCallbacks, v)
    requires InLine(w, p)
    ensures InLine(Settle(w, q, status, v, job), p)
  {
    var x := w.promises[q];
    var w1 := SetPromise(w, q, x.(status := status, result := v));
    var tickets := JobTickets(job, p);
    SettlingTickets(x, q, p);
    assert tickets == if p == q then Iota(x.attached) else [];
    EnqueueLine(w1, job, p);
    assert Settle(w, q, status, v, job) == Enqueue(w1, job) && Record(Enqueue(w1, job), p) == Record(w1, p);
    assert p != q ==> Record(w1, p) == Record(w, p);
    assert p == q ==> Record(w1, p) == x.(status := status, result := v);
    assert Line(w1, p) == Line(w, p);
    hide Paired, JobTickets, Line, Record, Iota, SetPromise, Enqueue, Settle;
    assert p == q ==> [] + tickets == tickets;
    assert p != q ==> Line(w, p) + tickets == Line(w, p);
  }

  /** The callbacks a settling promise hands over are all those ever attached to it, in order. */
  lemma SettlingTickets(x: Promise, q: PromiseId, p: PromiseId)
    requires Paired(x, q) && x.status == Pending
    ensures Tickets(x.thenCallbacks, p) == Tickets(x.catchCallbacks, p) == if p == q then Iota(x.attached) else []
  {
    TicketsOfList(x.thenCallbacks, q, p);
    TicketsOfList(x.catchCallbacks, q, p);
  }

  lemma LateReactInLine(w: World, q: PromiseId, c: Callback, p: PromiseId)
    requires q < |w.promises| && w.promises[q].status != Pending && InLine(w, p)
    requires c.source == q && c.ticket == w.promises[q].attached
    ensures InLine(Enqueue(SetPromise(w, q, w.promises[q].(attached := w.promises[q].attached + 1)),
                           Deliver([c], w.promises[q].result)), p)
  {
    var x := w.promises[q];
    var w1, j := SetPromise(w, q, x.(attached := x.attached + 1)), Deliver([c], x.result);
    assert Line(w1, p) == Line(w, p);
    assert Record(Enqueue(w1, j), p) == if p == q then x.(attached := x.attached + 1) else Record(w, p);
    LateTicket(c, x.result, p);
    hide Line, Record, JobTickets, Iota, SetPromise;
    EnqueueLine(w1, j, p);
    IotaOneMore(x.attached);
    assert p != q ==> Line(w, p) + [] == Line(w, p);
  }

  lemma LateTicket(c: Callback, v: Value, p: PromiseId)
    ensures JobTickets(Deliver([c], v), p) == if p == c.source then [c.ticket] else []
  {
    TicketsOfList([c], c.source, p);
  }

  lemma IotaOneMore(n: nat)
    ensures Iota(n + 1) == Iota(n) + [n]
  {
  }

  lemma ReactInLine(w: World, q: PromiseId, on: Reaction, onr: Reaction, p: PromiseId)
    requires q < |w.promises| && InLine(w, p)
    ensures InLine(React(w, q, on, onr), p)
  {
    var x := w.promises[q];
    if x.status == Pending {
      var w' := React(w, q, on, onr);
      assert Record(w', p).ran == Record(w, p).ran && Record(w', p).status == Record(w, p).status;
      assert p != q ==> Record(w', p) == Record(w, p);
      hide React, Record, Iota;
    } else {
      hide InLine;
      LateReactInLine(w, q, Callback(q, x.attached, if x.status == Fulfilled then on else onr), p);
    }
  }

  lemma SettleNextInLine(w: World, n: PromiseId, v: Value, p: PromiseId)
    requires n < |w.promises| && Paired(w.promises[n], n) && Balance(w, OfPromise(n)) == -1 && InLine(w, p)
    ensures InLine(ResolveNext(w, n, v), p) && InLine(RejectNext(w, n, v), p)
  {
    HolderFindsPending(w, n);
    hide InLine;
    SettleInLine(w, n, Fulfilled, v, Deliver(w.promises[n].thenCallbacks, v), p);
    SettleInLine(w, n, Rejected, v, Deliver(w.promises[n].catchCallbacks, v), p);
  }

  lemma SettleGuardedInLine(w: World, q: PromiseId, v: Value, p: PromiseId)
    requires q < |w.promises| && Paired(w.promises[q], q) && InLine(w, p)
    ensures InLine(FulfillPromise(w, q, v), p) && InLine(RejectPromise(w, q, v), p)
  {
    if w.promises[q].status == Pending {
      hide InLine;
      SettleInLine(w, q, Fulfilled, v, Deliver(w.promises[q].thenCallbacks, v), p);
      SettleInLine(w, q, Rejected, v, DeliverRejection(q, w.promises[q].catchCallbacks, v), p);
    }
  }

  /** Worlds that differ only in frames, the call stack and what is above the bottom of the native stack. */
  lemma SameLine(w: World, w': World, p: PromiseId)
    requires InLine(w, p) && w'.microtasks == w.microtasks && Record(w', p) == Record(w, p)
    requires ControlTickets(w'.control, p) == ControlTickets(w.control, p)
    ensures InLine(w', p)
  {
  }

  lemma LinkInLine(w: World, q: PromiseId, n: PromiseId, p: PromiseId)
    requires q < |w.promises| && InLine(w, p)
    ensures var w1 := React(w, q, ResolveNextLater(n), RejectNextLater(n));
            q < |w1.promises| && InLine(SetPromise(w1, q, w1.promises[q].(parent := Some(n))), p)
  {
    ReactInLine(w, q, ResolveNextLater(n), RejectNextLater(n), p);
    ParentInLine(React(w, q, ResolveNextLater(n), RejectNextLater(n)), q, n, p);
    hide InLine;
  }

  lemma FinishCallbackInLine(w: World, c: Callback, v: Value, res: Option<Value>, error: string, p: PromiseId)
    requires CallbackExists(c, |w.promises|, |w.frames|) && (res.Some? ==> ValueExists(res.value, w))
    requires RunsUserFunction(c.reaction) && AllPaired(w) && Balance(w, TargetOf(c.reaction)) == -1 && InLine(w, p)
    ensures InLine(FinishCallback(w, c, v, res, error), p)
  {
    var n := c.reaction.next;
    assert Paired(w.promises[n], n);
    hide Balance, InLine, AllPaired, Paired, ResolveNext, RejectNext, React;
    if c.reaction.RunFinally? {
      SettleNextInLine(w, n, v, p);
    } else if res.None? {
      SettleNextInLine(w, n, Text(error), p);
    } else if !res.value.PromiseRef? {
      SettleNextInLine(w, n, res.value, p);
    } else if w.promises[res.value.p].status == Pending {
      LinkInLine(w, res.value.p, n, p);
    } else {
      SettleNextInLine(w, n, w.promises[res.value.p].result, p);
    }
  }

  lemma ParentInLine(w: World, q: PromiseId, n: PromiseId, p: PromiseId)
    requires q < |w.promises| && InLine(w, p)
    ensures InLine(SetPromise(w, q, w.promises[q].(parent := Some(n))), p)
  {
  }

  lemma StartCallbackInLine(w: World, c: Callback, v: Value, p: PromiseId)
    requires CallbackExists(c, |w.promises|, |w.frames|) && AllPaired(w) && InLine(w, p) && w.control != []
    requires c.reaction.WakeFrame? || Balance(w, TargetOf(c.reaction)) == -1
    ensures InLine(StartCallback(w, c, v), p)
  {
    hide Balance, InLine;
    match c.reaction
    case WakeFrame(f, threw) =>
      SameLine(w, StampFrame(w, f, Stamped(threw, v)), p);
      WakeInLine(StampFrame(w, f, Stamped(threw, v)), f, p);
    case ResolveNextLater(n) => SettleNextInLine(w, n, v, p);
    case RejectNextLater(n) => SettleNextInLine(w, n, v, p);
    case RunThen(n, _, r, was) =>
      if was && r.None? { SettleNextInLine(w, n, v, p); } else { SameLine(w, Push(w, InCallback(c, v)), p); }
    case _ => SameLine(w, Push(w, InCallback(c, v)), p);
  }

  lemma WakeInLine(w: World, f: FrameId, p: PromiseId)
    requires InLine(w, p)
    ensures InLine(Enqueue(w, Resume(f)), p)
  {
    EnqueueLine(w, Resume(f), p);
  }

  lemma TakeFirstInLine(w: World, p: PromiseId)
    requires WellFormed(w) && |w.control| == 1 && Top(w).Delivering? && Top(w).rest != [] && InLine(w, p)
    requires Record(w, Top(w).rest[0].source).status != Pending
    ensures InLine(TakeFirst(w), p)
  {
    assert CallbackExists(Top(w).rest[0], |w.promises|, |w.frames|);
    TakeFirstParts(w, p);
    var w' := TakeFirst(w);
    hide WellFormed, ActivationExists, CallbackExists, TakeFirst, ControlTickets, Record, QueueTickets, Iota;
    var taken := if p == Top(w).rest[0].source then [Top(w).rest[0].ticket] else [];
    MoveTaken(Record(w, p).ran, taken, ControlTickets(w'.control, p), QueueTickets(w.microtasks, p));
  }

  lemma MoveTaken(ran: seq<nat>, taken: seq<nat>, rest: seq<nat>, queued: seq<nat>)
    ensures (ran + taken) + rest + queued == ran + (taken + rest) + queued
  {
  }

  /** Taking a callback moves its ticket from the loop to the history of its promise. */
  lemma TakeFirstParts(w: World, p: PromiseId)
    requires |w.control| == 1 && Top(w).Delivering? && Top(w).rest != []
    requires ActivationExists(Top(w), |w.promises|, |w.frames|)
    ensures var w', c, x := TakeFirst(w), Top(w).rest[0], Record(w, p);
            var taken := if p == c.source then [c.ticket] else [];
            && w'.microtasks == w.microtasks
            && ControlTickets(w.control, p) == taken + ControlTickets(w'.control, p)
            && Record(w', p) == x.(ran := x.ran + taken)
  {
    var c, x := Top(w).rest[0], Record(w, p);
    assert CallbackExists(c, |w.promises|, |w.frames|);
    assert x.ran + [] == x.ran;
    hide CallbacksExist, TargetExists;
    assert TakeFirst(w).control == [Top(w).(rest := Top(w).rest[1..])];
  }

  /** A callback on its way belongs to a settled promise. */
  lemma TicketMeansSettled(w: World, c: Callback)
    requires w.control != [] && w.control[0].Delivering? && w.control[0].rest != [] && w.control[0].rest[0] == c
    requires InLine(w, c.source)
    ensures Record(w, c.source).status != Pending
  {
    assert c.ticket in Tickets(w.control[0].rest, c.source);
    assert c.ticket in Line(w, c.source);
  }

  // ---------- every step ----------

  lemma AttachedInLine(w: World, q: PromiseId, mark: bool, on: Reaction, onr: Reaction, p: PromiseId)
    requires WellFormed(w) && q < |w.promises| && InLine(w, p)
    ensures InLine(Attached(w, q, mark, on, onr), p)
  {
    var x := FreshPromise(Some(q), Derived);
    var w1 := AddPromise(w, x);
    WfAddPromise(w, x);
    hide WellFormed;
    AddInLine(w, x, p);
    MarkOrNot(w1, q, mark, p);
    hide InLine;
    ReactInLine(if mark then Mark(w1, q) else w1, q, on, onr, p);
  }

  lemma AddInLine(w: World, x: Promise, p: PromiseId)
    requires InLine(w, p) && x.ran == [] && x.attached == 0
    ensures InLine(AddPromise(w, x), p)
  {
  }

  lemma MarkOrNot(w: World, q: PromiseId, mark: bool, p: PromiseId)
    requires q < |w.promises| && ParentsExist(w.promises) && InLine(w, p)
    ensures InLine(if mark then Mark(w, q) else w, p)
  {
    if mark {
    }
  }

  lemma AttachInLine(w: World, a: Action, p: PromiseId)
    requires Enabled(w, a) && (a.AttachThen? || a.AttachCatch? || a.AttachFinally?) && InLine(w, p)
    ensures InLine(Apply(w, a), p)
  {
    var n := |w.promises|;
    hide InLine;
    match a
    case AttachThen(q, f, r) =>
      AttachedInLine(w, q, r.Some?, RunThen(n, f, r, false),
        if w.promises[q].status == Rejected && r.None? then RejectNextLater(n) else RunThen(n, f, r, true), p);
    case AttachCatch(q, f) => AttachedInLine(w, q, true, ResolveNextLater(n), RunCatch(n, f), p);
    case AttachFinally(q, f) => AttachedInLine(w, q, false, RunFinally(n, f, false), RunFinally(n, f, true), p);
  }

  lemma RegisterInLine(w: World, f: FrameId, v: Value, p: PromiseId)
    requires f < |w.frames| && ValueExists(v, w) && WellFormed(w) && InLine(w, p)
    ensures InLine(Register(w, f, v), p)
  {
    if !v.PromiseRef? {
      var x := FreshPromise(None, Constructed).(status := Fulfilled, result := v);
      AddInLine(w, x, p);
      WakeInLine(AddPromise(w, x), f, p);
    } else {
      hide InLine;
      WakeInLine(w, f, p);
      WakeInLine(Mark(w, v.p), f, p);
      ReactInLine(Mark(w, v.p), v.p, WakeFrame(f, false), WakeFrame(f, true), p);
    }
  }

  lemma AwaitInLineAt(w: World, f: FrameId, v: Value, p: PromiseId)
    requires f < |w.frames| && ValueExists(v, w) && WellFormed(w) && InLine(w, p)
    requires w.control != [] && Top(w).AsyncBody?
    ensures AwaitIn(w, f, v).control == w.control && InLine(Pop(AwaitIn(w, f, v)), p)
  {
    hide InLine;
    RegisterInLine(w, f, v, p);
    RegisterControl(w, f, v);
    assert AwaitIn(w, f, v) == Suspend(Register(w, f, v), f, AwaitedBy(w, v)) && AwaitIn(w, f, v).control == w.control;
    hide WellFormed, Register, ParentsExist, ValueExists, AwaitIn, Suspend;
    LeaveInLine(Register(w, f, v), f, AwaitedBy(w, v), p);
  }

  lemma AwaitInLine(w: World, v: Value, p: PromiseId)
    requires Enabled(w, Await(v)) && InLine(w, p)
    ensures InLine(Apply(w, Await(v)), p)
  {
    TopsExist(w);
    AwaitInLineAt(w, w.callStack[|w.callStack| - 1], v, p);
    hide InLine, WellFormed, AwaitIn;
  }

  lemma RegisterControl(w: World, f: FrameId, v: Value)
    requires f < |w.frames| && ValueExists(v, w) && ParentsExist(w.promises)
    ensures var w1 := Register(w, f, v); w1.control == w.control && w1.frames == w.frames
  {
  }

  lemma LeaveInLine(w: World, f: FrameId, a: Awaited, p: PromiseId)
    requires f < |w.frames| && w.control != [] && Top(w).AsyncBody? && InLine(w, p)
    ensures InLine(Pop(Suspend(w, f, a)), p)
  {
    hide InLine;
    SameLine(w, Pop(Suspend(w, f, a)), p);
  }

  lemma ReturnInLine(w: World, p: PromiseId)
    requires w.control != [] && Top(w).AsyncBody? && InLine(w, p)
    ensures InLine(PopFrame(Pop(w)), p)
  {
    SameLine(w, PopFrame(Pop(w)), p);
  }

  lemma SettleControl(w: World, q: PromiseId, v: Value)
    requires q < |w.promises|
    ensures FulfillPromise(w, q, v).control == w.control == RejectPromise(w, q, v).control
    ensures FulfillPromise(w, q, v).frames == w.frames == RejectPromise(w, q, v).frames
  {
  }

  lemma FinishInLineAt(w: World, q: PromiseId, fulfil: bool, v: Value, p: PromiseId)
    requires q < |w.promises| && Paired(w.promises[q], q) && w.control != [] && Top(w).AsyncBody? && InLine(w, p)
    requires Top(w).f < |w.frames|
    ensures var w1 := if fulfil then FulfillPromise(w, q, v) else RejectPromise(w, q, v);
            w1.control == w.control && InLine(PopFrame(Pop(w1)), p)
  {
    hide InLine, Paired, FulfillPromise, RejectPromise;
    SettleGuardedInLine(w, q, v, p);
    SettleControl(w, q, v);
    if fulfil {
      ReturnInLine(FulfillPromise(w, q, v), p);
    } else {
      ReturnInLine(RejectPromise(w, q, v), p);
    }
  }

  lemma FinishInLine(w: World, fulfil: bool, v: Value, p: PromiseId)
    requires AllPaired(w) && Enabled(w, FinishAsync(fulfil, v)) && InLine(w, p)
    ensures InLine(Apply(w, FinishAsync(fulfil, v)), p)
  {
    TopsExist(w);
    var q := w.frames[Top(w).f].pendingPromise.value;
    assert Paired(w.promises[q], q);
    FinishInLineAt(w, q, fulfil, v, p);
    hide InLine, AllPaired, WellFormed, Paired, FulfillPromise, RejectPromise;
  }

  lemma ReadyToFinish(w: World, a: Action)
    requires Inv(w) && Enabled(w, a) && (a.CallbackReturns? || a.CallbackThrows?)
    ensures var c := Top(w).callback;
            CallbackExists(c, |w.promises|, |w.frames|) && AllPaired(Pop(w))
            && Balance(Pop(w), TargetOf(c.reaction)) == -1
  {
    var c := Top(w).callback;
    OwnedBalance(w, TargetOf(c.reaction));
    PopBalance(w, TargetOf(c.reaction));
    TopsExist(w);
    hide Owned, FramesOk, WellFormed, AllPaired;
  }

  lemma CallbackInLine(w: World, a: Action, p: PromiseId)
    requires Inv(w) && Enabled(w, a) && (a.CallbackReturns? || a.CallbackThrows?) && InLine(w, p)
    ensures InLine(Apply(w, a), p)
  {
    var c := Top(w).callback;
    ReadyToFinish(w, a);
    hide Inv, Balance, Owned, FramesOk, WellFormed, AllPaired, InLine;
    var res, error := if a.CallbackReturns? then Some(a.v) else None, if a.CallbackReturns? then "" else a.error;
    assert Apply(w, a) == FinishCallback(Pop(w), c, Top(w).v, res, error);
    hide FinishCallback, Apply, CallbackExists, ControlTickets, TargetOf;
    SameLine(w, Pop(w), p);
    FinishCallbackInLine(Pop(w), c, Top(w).v, res, error, p);
  }

  lemma DeliveryInLine(w: World, p: PromiseId)
    requires Inv(w) && Enabled(w, StepDelivery) && forall q :: InLine(w, q)
    ensures InLine(DeliveryTurn(w), p)
  {
    DeliveryAtBottom(w);
    if Top(w).rest == [] {
      EndInLine(w, p);
    } else {
      var c := Top(w).rest[0];
      assert CallbackExists(c, |w.promises|, |w.frames|);
      TicketMeansSettled(w, c);
      OwnedBalance(w, TargetOf(c.reaction));
      TakeFirstBalance(w, TargetOf(c.reaction));
      TakeFirstPaired(w);
      TakeFirstInLine(w, p);
      hide Balance, Owned, FramesOk, WellFormed, AllPaired, InLine;
      StartCallbackInLine(TakeFirst(w), c, Top(w).v, p);
    }
  }

  lemma EndInLine(w: World, p: PromiseId)
    requires WellFormed(w) && |w.control| == 1 && Top(w).Delivering? && Top(w).rest == [] && InLine(w, p)
    ensures InLine(DeliveryTurn(w), p)
  {
    var check := Top(w).check;
    assert Line(Pop(w), p) == Line(w, p);
    if check.Some? && !w.promises[check.value].checkScheduled {
      var w1 := SetPromise(Pop(w), check.value, w.promises[check.value].(checkScheduled := true));
      assert InLine(w1, p);
      EnqueueLine(w1, CheckUnhandled(check.value), p);
    }
  }

  lemma MicrotaskInLine(w: World, p: PromiseId)
    requires Enabled(w, RunMicrotask) && InLine(w, p)
    ensures InLine(Apply(w, RunMicrotask), p)
  {
    var j, w1 := w.microtasks[0], w.(microtasks := w.microtasks[1..]);
    assert JobExists(j, |w1.promises|, |w1.frames|);
    assert Apply(w, RunMicrotask) == StartJob(w1, j);
    assert ControlTickets(w.control, p) == [];
    assert QueueTickets(w.microtasks, p) == JobTickets(j, p) + QueueTickets(w1.microtasks, p);
    StartedJob(w1, j, p);
    hide WellFormed, Enabled, Apply, JobExists, StartJob, JobTickets, ControlTickets, QueueTickets, Iota;
    MoveQueued(Record(w, p).ran, JobTickets(j, p), QueueTickets(w1.microtasks, p));
  }

  lemma MoveQueued(ran: seq<nat>, first: seq<nat>, rest: seq<nat>)
    ensures ran + first + rest == ran + [] + (first + rest)
  {
  }

  /** A microtask brings its callbacks onto the native stack and changes nothing else in the line. */
  lemma StartedJob(w: World, j: Job, p: PromiseId)
    requires w.control == [] && JobExists(j, |w.promises|, |w.frames|)
    ensures var w' := StartJob(w, j);
            && w'.microtasks == w.microtasks && ControlTickets(w'.control, p) == JobTickets(j, p)
            && Record(w', p).(reported := Record(w, p).reported) == Record(w, p)
  {
  }

  lemma StepInLine(w: World, a: Action, p: PromiseId)
    requires Inv(w) && Enabled(w, a) && forall q :: InLine(w, q)
    ensures InLine(Apply(w, a), p)
  {
    assert InLine(w, p);
    match a
    case RunMicrotask => MicrotaskInLine(w, p);
    case StepDelivery => DeliveryInLine(w, p);
    case AttachThen(_, _, _) => AttachInLine(w, a, p);
    case AttachCatch(_, _) => AttachInLine(w, a, p);
    case AttachFinally(_, _) => AttachInLine(w, a, p);
    case Await(v) => AwaitInLine(w, v, p);
    case FinishAsync(fulfil, v) => FinishInLine(w, fulfil, v, p);
    case CallbackReturns(_) => CallbackInLine(w, a, p);
    case CallbackThrows(_) => CallbackInLine(w, a, p);
    case SettleConstructed(q, _, v) => assert Paired(w.promises[q], q); SettleGuardedInLine(w, q, v, p);
    case _ =>
  }

  lemma {:induction false} RunInLine(w: World, actions: seq<Action>, w': World)
    requires Inv(w) && forall q :: InLine(w, q)
    ensures Run(w, actions, w') ==> forall q :: InLine(w', q)
    decreases |actions|
  {
    if actions != [] && Run(w, actions, w') {
      StepInv(w, actions[0]);
      forall q ensures InLine(Apply(w, actions[0]), q) { StepInLine(w, actions[0], q); }
      RunInLine(Apply(w, actions[0]), actions[1..], w');
    }
  }

  // ---------- main result ----------

  /** In every reachable state the reactions of p that have run are the first k attached, in attachment order; and
      once p is settled and no microtask is queued or under way, they are all of them. */
  lemma ReactionsInOrder(w: World, p: PromiseId)
    requires Reachable(w) && p < |w.promises|
    ensures |w.promises[p].ran| <= w.promises[p].attached && w.promises[p].ran == Iota(|w.promises[p].ran|)
    ensures w.promises[p].status == Pending ==> w.promises[p].ran == []
    ensures w.promises[p].status != Pending && w.microtasks == [] && w.control == [] ==>
              |w.promises[p].ran| == w.promises[p].attached
  {
    var actions :| Run(INIT, actions, w);
    RunInLine(INIT, actions, w);
    assert InLine(w, p);
    var ran := w.promises[p].ran;
    assert ran == Line(w, p)[..|ran|];
  }
}
