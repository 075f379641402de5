/** The asynchronous core of the interpreter as a step machine.

    Promises, call frames and microtasks live in one World. Shared pointers become numbers: a PromiseId or
    FrameId indexes an append-only store. The closures the interpreter pushes onto callback lists become
    Reactions. User code is not fixed: whenever an activation that runs user code is on top of the native
    stack, any user action may happen next, so every statement about all runs is one about all programs. */
module AsyncMachine {
  import opened Wrappers
  import opened Decimal

  type PromiseId = nat
  type FrameId = nat
  type FunctionId = nat

  datatype Value = Undefined | Number(n: int) | Text(s: string) | PromiseRef(p: PromiseId)

  datatype Status = Pending | Fulfilled | Rejected

  /** Who may settle the promise: the resolve and reject functions of its constructor, the async call that
      returned it, or the closures of then, catch and finally. */
  datatype Origin = Constructed | OfCall | Derived

  /** The closures stored in then_callbacks and catch_callbacks. */
  datatype Reaction =
    | RunThen(next: PromiseId, onFulfilled: FunctionId, onRejected: Option<FunctionId>, wasRejected: bool)
    | RunCatch(next: PromiseId, cb: FunctionId)
    | RunFinally(next: PromiseId, cb: FunctionId, wasRejected: bool)
    | ResolveNextLater(next: PromiseId)
    | RejectNextLater(next: PromiseId)
    | WakeFrame(frame: FrameId, threw: bool)

  /** What a reaction is there to do: settle a promise or wake a frame. */
  datatype Target = OfPromise(p: PromiseId) | OfFrame(f: FrameId)

  /** A reaction with its place in the attachment order of the promise it was attached to. */
  datatype Callback = Callback(source: PromiseId, ticket: nat, reaction: Reaction)

  /** PromiseValue. The last three fields are not in the interpreter: origin tells which actions can reach the
      promise, attached and ran are the history of its reactions. */
  datatype Promise = Promise(
    status: Status,
    result: Value,
    thenCallbacks: seq<Callback>,
    catchCallbacks: seq<Callback>,
    handled: bool,
    reported: bool,
    checkScheduled: bool,
    parent: Option<PromiseId>,
    origin: Origin,
    attached: nat,
    ran: seq<nat>)

  /** How an awaited promise ended: the entry that awaited_results or awaited_exceptions gets. */
  datatype Stamp = Stamp(threw: bool, v: Value)

  /** The text of the runtime_error made from the reason of a rejection: a string as it is, anything else printed. */
  function ErrorText(reason: Value): string {
    match reason
    case Text(s) => s
    case Undefined => "null"
    case Number(n) => if n < 0 then "-" + Plain(-n) else Plain(n)
    case PromiseRef(_) => "[Promise]"
  }

  /** A result is stamped as it is, a reason as the error made from it. */
  function Stamped(threw: bool, v: Value): Stamp {
    Stamp(threw, if threw then Text(ErrorText(v)) else v)
  }

  /** What a frame last suspended for, stamped once that promise has ended. */
  datatype Awaited = Awaited(p: PromiseId, stamp: Option<Stamp>)

  datatype Frame = Frame(pendingPromise: Option<PromiseId>, isSuspended: bool, awaited: Option<Awaited>)

  /** A queued microtask. */
  datatype Job =
    | Deliver(callbacks: seq<Callback>, v: Value)
    | DeliverRejection(p: PromiseId, callbacks: seq<Callback>, v: Value)
    | CheckUnhandled(p: PromiseId)
    | Resume(f: FrameId)

  /** What is on the native stack: a macrotask, the loop over a snapshot of callbacks, a callback waiting for the
      user function it called, or the executor of a function body. */
  datatype Activation =
    | Macrotask
    | Delivering(rest: seq<Callback>, v: Value, check: Option<PromiseId>)
    | InCallback(callback: Callback, v: Value)
    | AsyncBody(f: FrameId)
    | SyncBody(f: FrameId)

  datatype World = World(
    promises: seq<Promise>,
    frames: seq<Frame>,
    microtasks: seq<Job>,
    callStack: seq<FrameId>,
    suspendedFrames: seq<FrameId>,
    control: seq<Activation>,
    reports: seq<PromiseId>)

  const INIT := World([], [], [], [], [], [], [])

  // ---------- numbers that name something ----------

  function TargetOf(r: Reaction): Target {
    match r
    case RunThen(next, _, _, _) => OfPromise(next)
    case RunCatch(next, _) => OfPromise(next)
    case RunFinally(next, _, _) => OfPromise(next)
    case ResolveNextLater(next) => OfPromise(next)
    case RejectNextLater(next) => OfPromise(next)
    case WakeFrame(f, _) => OfFrame(f)
  }

  predicate TargetExists(t: Target, np: nat, nf: nat) {
    match t
    case OfPromise(p) => p < np
    case OfFrame(f) => f < nf
  }

  predicate CallbackExists(c: Callback, np: nat, nf: nat) {
    c.source < np && TargetExists(TargetOf(c.reaction), np, nf)
  }

  predicate CallbacksExist(cs: seq<Callback>, np: nat, nf: nat) {
    forall c <- cs :: CallbackExists(c, np, nf)
  }

  predicate PromiseExists(p: Promise, np: nat, nf: nat) {
    && CallbacksExist(p.thenCallbacks, np, nf)
    && CallbacksExist(p.catchCallbacks, np, nf)
    && (p.parent.Some? ==> p.parent.value < np)
  }

  predicate JobExists(j: Job, np: nat, nf: nat) {
    match j
    case Deliver(cs, _) => CallbacksExist(cs, np, nf)
    case DeliverRejection(p, cs, _) => p < np && CallbacksExist(cs, np, nf)
    case CheckUnhandled(p) => p < np
    case Resume(f) => f < nf
  }

  predicate ActivationExists(a: Activation, np: nat, nf: nat) {
    match a
    case Macrotask => true
    case Delivering(cs, _, check) => CallbacksExist(cs, np, nf) && (check.Some? ==> check.value < np)
    case InCallback(c, _) => CallbackExists(c, np, nf)
    case AsyncBody(f) => f < nf
    case SyncBody(f) => f < nf
  }

  /** No pointer dangles. */
  ghost predicate WellFormed(w: World) {
    var np, nf := |w.promises|, |w.frames|;
    && (forall p | 0 <= p < np :: PromiseExists(w.promises[p], np, nf))
    && (forall f | 0 <= f < nf :: w.frames[f].pendingPromise.Some? ==> w.frames[f].pendingPromise.value < np)
    && (forall i | 0 <= i < |w.microtasks| :: JobExists(w.microtasks[i], np, nf))
    && (forall i | 0 <= i < |w.control| :: ActivationExists(w.control[i], np, nf))
    && (forall f <- w.callStack :: f < nf)
    && (forall f <- w.suspendedFrames :: f < nf)
  }

  predicate ValueExists(v: Value, w: World) {
    v.PromiseRef? ==> v.p < |w.promises|
  }

  // ---------- promises ----------

  function SetPromise(w: World, p: PromiseId, x: Promise): World
    requires p < |w.promises|
  {
    w.(promises := w.promises[p := x])
  }

  function Enqueue(w: World, j: Job): World {
    w.(microtasks := w.microtasks + [j])
  }

  function FreshPromise(parent: Option<PromiseId>, origin: Origin): Promise {
    Promise(Pending, Undefined, [], [], false, false, false, parent, origin, 0, [])
  }

  function AddPromise(w: World, x: Promise): World {
    w.(promises := w.promises + [x])
  }

  /** Sets the state and the result and queues one microtask, as all four settling routines do. */
  function Settle(w: World, p: PromiseId, status: Status, v: Value, job: Job): World
    requires p < |w.promises|
  {
    Enqueue(SetPromise(w, p, w.promises[p].(status := status, result := v)), job)
  }

  /** resolve_next: no test of the state. */
  function ResolveNext(w: World, n: PromiseId, v: Value): World
    requires n < |w.promises|
  {
    Settle(w, n, Fulfilled, v, Deliver(w.promises[n].thenCallbacks, v))
  }

  /** reject_next: no test of the state and no later check for an unhandled rejection. */
  function RejectNext(w: World, n: PromiseId, r: Value): World
    requires n < |w.promises|
  {
    Settle(w, n, Rejected, r, Deliver(w.promises[n].catchCallbacks, r))
  }

  function FulfillPromise(w: World, p: PromiseId, v: Value): World
    requires p < |w.promises|
  {
    if w.promises[p].status != Pending then w
    else Settle(w, p, Fulfilled, v, Deliver(w.promises[p].thenCallbacks, v))
  }

  function RejectPromise(w: World, p: PromiseId, r: Value): World
    requires p < |w.promises|
  {
    if w.promises[p].status != Pending then w
    else Settle(w, p, Rejected, r, DeliverRejection(p, w.promises[p].catchCallbacks, r))
  }

  ghost predicate ParentsExist(ps: seq<Promise>) {
    forall p | 0 <= p < |ps| :: ps[p].parent.Some? ==> ps[p].parent.value < |ps|
  }

  function Unhandled(ps: seq<Promise>): nat {
    if ps == [] then 0
    else Unhandled(ps[..|ps| - 1]) + if ps[|ps| - 1].handled then 0 else 1
  }

  lemma {:induction false} UnhandledDrops(ps: seq<Promise>, p: PromiseId)
    requires p < |ps| && !ps[p].handled
    ensures Unhandled(ps[p := ps[p].(handled := true)]) == Unhandled(ps) - 1
  {
    var qs := ps[p := ps[p].(handled := true)];
    var last := |ps| - 1;
    if p == last {
      assert qs[..last] == ps[..last];
    } else {
      UnhandledDrops(ps[..last], p);
      assert qs[..last] == ps[..last][p := ps[p].(handled := true)];
    }
  }

  /** Only handled flags differ, and none is taken back. */
  ghost predicate OnlyHandledGrows(ps: seq<Promise>, qs: seq<Promise>) {
    && |qs| == |ps|
    && forall i | 0 <= i < |ps| ::
         qs[i] == ps[i].(handled := qs[i].handled) && (ps[i].handled ==> qs[i].handled)
  }

  /** mark_promise_and_ancestors_handled: up the parent links to the first promise already handled. */
  function MarkHandled(ps: seq<Promise>, p: PromiseId): (qs: seq<Promise>)
    requires p < |ps| && ParentsExist(ps)
    ensures OnlyHandledGrows(ps, qs)
    decreases Unhandled(ps)
  {
    if ps[p].handled then ps
    else
      var marked := ps[p := ps[p].(handled := true)];
      UnhandledDrops(ps, p);
      match ps[p].parent
      case None => marked
      case Some(q) => MarkHandled(marked, q)
  }

  function Mark(w: World, p: PromiseId): World
    requires p < |w.promises| && ParentsExist(w.promises)
  {
    w.(promises := MarkHandled(w.promises, p))
  }

  /** Attaches a pair of reactions: onto the callback lists of a pending promise, else as a microtask. */
  function React(w: World, p: PromiseId, onFulfilled: Reaction, onRejected: Reaction): World
    requires p < |w.promises|
  {
    var x := w.promises[p];
    var c0, c1 := Callback(p, x.attached, onFulfilled), Callback(p, x.attached, onRejected);
    match x.status
    case Pending =>
      SetPromise(w, p, x.(thenCallbacks := x.thenCallbacks + [c0], catchCallbacks := x.catchCallbacks + [c1],
        attached := x.attached + 1))
    case Fulfilled => Enqueue(SetPromise(w, p, x.(attached := x.attached + 1)), Deliver([c0], x.result))
    case Rejected => Enqueue(SetPromise(w, p, x.(attached := x.attached + 1)), Deliver([c1], x.result))
  }

  /** p.then(f, r). With no r, a promise already rejected gets the plain forwarding closure. */
  function Then(w: World, p: PromiseId, f: FunctionId, r: Option<FunctionId>): World
    requires p < |w.promises| && ParentsExist(w.promises)
  {
    var next := |w.promises|;
    var w1 := AddPromise(w, FreshPromise(Some(p), Derived));
    var w2 := if r.Some? then Mark(w1, p) else w1;
    var onRejected :=
      if w.promises[p].status == Rejected && r.None? then RejectNextLater(next) else RunThen(next, f, r, true);
    React(w2, p, RunThen(next, f, r, false), onRejected)
  }

  function Catch(w: World, p: PromiseId, cb: FunctionId): World
    requires p < |w.promises| && ParentsExist(w.promises)
  {
    var next := |w.promises|;
    var w1 := Mark(AddPromise(w, FreshPromise(Some(p), Derived)), p);
    React(w1, p, ResolveNextLater(next), RunCatch(next, cb))
  }

  function Finally(w: World, p: PromiseId, cb: FunctionId): World
    requires p < |w.promises|
  {
    var next := |w.promises|;
    var w1 := AddPromise(w, FreshPromise(Some(p), Derived));
    React(w1, p, RunFinally(next, cb, false), RunFinally(next, cb, true))
  }

  /** What the runner of then and catch does with the value its callback returned. */
  function Chain(w: World, n: PromiseId, res: Value): World
    requires n < |w.promises| && ValueExists(res, w)
  {
    if res.PromiseRef? then
      match w.promises[res.p].status
      case Fulfilled => ResolveNext(w, n, w.promises[res.p].result)
      case Rejected => RejectNext(w, n, w.promises[res.p].result)
      case Pending =>
        var w1 := React(w, res.p, ResolveNextLater(n), RejectNextLater(n));
        SetPromise(w1, res.p, w1.promises[res.p].(parent := Some(n)))
    else ResolveNext(w, n, res)
  }

  // ---------- frames ----------

  function Remove(s: seq<FrameId>, f: FrameId): seq<FrameId> {
    if s == [] then [] else if s[0] == f then s[1..] else [s[0]] + Remove(s[1..], f)
  }

  function PushFrame(w: World, f: FrameId): World {
    w.(callStack := w.callStack + [f])
  }

  function PopFrame(w: World): World {
    if w.callStack == [] then w else w.(callStack := w.callStack[..|w.callStack| - 1])
  }

  function Push(w: World, a: Activation): World {
    w.(control := w.control + [a])
  }

  function Pop(w: World): World
    requires w.control != []
  {
    w.(control := w.control[..|w.control| - 1])
  }

  function Top(w: World): Activation
    requires w.control != []
  {
    w.control[|w.control| - 1]
  }

  /** The tail shared by the three await branches: suspend, keep the frame alive, leave the call stack. */
  function Suspend(w: World, f: FrameId, a: Awaited): World
    requires f < |w.frames|
  {
    PopFrame(w.(frames := w.frames[f := w.frames[f].(isSuspended := true, awaited := Some(a))],
                suspendedFrames := w.suspendedFrames + [f]))
  }

  /** What await leaves on the frame: a promise that has ended is stamped at once, a pending one when it ends. */
  function AwaitedBy(w: World, v: Value): Awaited
    requires ValueExists(v, w)
  {
    if !v.PromiseRef? then Awaited(|w.promises|, Some(Stamp(false, v)))
    else
      var x := w.promises[v.p];
      Awaited(v.p, if x.status == Pending then None else Some(Stamped(x.status == Rejected, x.result)))
  }

  function StampFrame(w: World, f: FrameId, s: Stamp): World
    requires f < |w.frames|
  {
    match w.frames[f].awaited
    case None => w
    case Some(a) => w.(frames := w.frames[f := w.frames[f].(awaited := Some(a.(stamp := Some(s))))])
  }

  /** The part of await that differs by the state of the operand: who will resume frame f, and when. */
  function Register(w: World, f: FrameId, v: Value): World
    requires f < |w.frames| && ValueExists(v, w) && ParentsExist(w.promises)
  {
    if !v.PromiseRef? then
      // a plain value is wrapped in a fresh fulfilled promise
      Enqueue(AddPromise(w, FreshPromise(None, Constructed).(status := Fulfilled, result := v)), Resume(f))
    else
      match w.promises[v.p].status
      case Fulfilled => Enqueue(w, Resume(f))
      case Rejected => Enqueue(Mark(w, v.p), Resume(f))
      case Pending => React(Mark(w, v.p), v.p, WakeFrame(f, false), WakeFrame(f, true))
  }

  /** await v in the current frame. */
  function AwaitIn(w: World, f: FrameId, v: Value): World
    requires f < |w.frames| && ValueExists(v, w) && ParentsExist(w.promises)
  {
    Suspend(Register(w, f, v), f, AwaitedBy(w, v))
  }

  /** The microtask that resumes a frame. */
  function ResumeFrame(w: World, f: FrameId): World
    requires f < |w.frames|
  {
    var w1 := w.(suspendedFrames := Remove(w.suspendedFrames, f));
    var w2 := if f in w1.callStack then w1 else PushFrame(w1, f);
    Push(w2.(frames := w2.frames[f := w2.frames[f].(isSuspended := false)]), AsyncBody(f))
  }

  function Call(w: World, promise: Option<PromiseId>): World {
    var f := |w.frames|;
    var w1 := PushFrame(w.(frames := w.frames + [Frame(promise, false, None)]), f);
    Push(w1, if promise.Some? then AsyncBody(f) else SyncBody(f))
  }

  // ---------- microtasks and callbacks ----------

  function StartJob(w: World, j: Job): World
    requires JobExists(j, |w.promises|, |w.frames|)
  {
    match j
    case Deliver(cs, v) => Push(w, Delivering(cs, v, None))
    case DeliverRejection(p, cs, v) => Push(w, Delivering(cs, v, Some(p)))
    case CheckUnhandled(p) =>
      if !w.promises[p].handled && !w.promises[p].reported
      then SetPromise(w, p, w.promises[p].(reported := true)).(reports := w.reports + [p])
      else w
    case Resume(f) => ResumeFrame(w, f)
  }

  /** Runs one callback of a snapshot, up to the user function it calls, if it calls one. */
  function StartCallback(w: World, c: Callback, v: Value): World
    requires CallbackExists(c, |w.promises|, |w.frames|)
  {
    match c.reaction
    case RunThen(next, _, onRejected, wasRejected) =>
      if wasRejected && onRejected.None? then RejectNext(w, next, v) else Push(w, InCallback(c, v))
    case RunCatch(_, _) => Push(w, InCallback(c, v))
    case RunFinally(_, _, _) => Push(w, InCallback(c, v))
    case ResolveNextLater(next) => ResolveNext(w, next, v)
    case RejectNextLater(next) => RejectNext(w, next, v)
    case WakeFrame(f, threw) => Enqueue(StampFrame(w, f, Stamped(threw, v)), Resume(f))
  }

  /** The user function of a callback has returned res, or thrown when res is None. */
  function FinishCallback(w: World, c: Callback, v: Value, res: Option<Value>, error: string): World
    requires CallbackExists(c, |w.promises|, |w.frames|) && (res.Some? ==> ValueExists(res.value, w))
    requires c.reaction.RunThen? || c.reaction.RunCatch? || c.reaction.RunFinally?
  {
    var next := c.reaction.next;
    if c.reaction.RunFinally? then
      if c.reaction.wasRejected then RejectNext(w, next, v) else ResolveNext(w, next, v)
    else if res.Some? then Chain(w, next, res.value)
    else RejectNext(w, next, Text(error))
  }

  /** A turn of the loop over a snapshot takes the first callback into its hands and books it as run. */
  function TakeFirst(w: World): World
    requires w.control != [] && Top(w).Delivering? && Top(w).rest != []
    requires ActivationExists(Top(w), |w.promises|, |w.frames|)
  {
    var Delivering(rest, v, check) := Top(w);
    assert CallbackExists(rest[0], |w.promises|, |w.frames|);
    var x := w.promises[rest[0].source];
    SetPromise(Push(Pop(w), Delivering(rest[1..], v, check)), rest[0].source, x.(ran := x.ran + [rest[0].ticket]))
  }

  /** One turn of the loop; when the snapshot is exhausted, the end of the microtask. */
  function DeliveryTurn(w: World): World
    requires w.control != [] && Top(w).Delivering?
    requires ActivationExists(Top(w), |w.promises|, |w.frames|)
  {
    var Delivering(rest, v, check) := Top(w);
    if rest != [] then
      assert CallbackExists(rest[0], |w.promises|, |w.frames|);
      StartCallback(TakeFirst(w), rest[0], v)
    else if check.Some? && !w.promises[check.value].checkScheduled then
      Enqueue(SetPromise(Pop(w), check.value, w.promises[check.value].(checkScheduled := true)),
              CheckUnhandled(check.value))
    else Pop(w)
  }

  // ---------- steps ----------

  datatype Action =
    | StartMacrotask
    | EndMacrotask
    | RunMicrotask
    | StepDelivery
    | NewPromise
    | SettleConstructed(p: PromiseId, fulfil: bool, v: Value)
    | AttachThen(p: PromiseId, f: FunctionId, r: Option<FunctionId>)
    | AttachCatch(p: PromiseId, f: FunctionId)
    | AttachFinally(p: PromiseId, f: FunctionId)
    | CallSync
    | ReturnSync
    | CallAsync
    | FinishAsync(fulfil: bool, v: Value)
    | Await(v: Value)
    | CallbackReturns(v: Value)
    | CallbackThrows(error: string)

  predicate UserCodeOnTop(w: World) {
    w.control != [] && !Top(w).Delivering?
  }

  ghost predicate Enabled(w: World, a: Action) {
    && WellFormed(w)
    && match a
       case StartMacrotask => w.control == [] && w.microtasks == []
       case EndMacrotask => w.control == [Macrotask]
       case RunMicrotask => w.control == [] && w.microtasks != []
       case StepDelivery => w.control != [] && Top(w).Delivering?
       case NewPromise => UserCodeOnTop(w)
       case SettleConstructed(p, _, _) =>
         UserCodeOnTop(w) && p < |w.promises| && w.promises[p].origin == Constructed
       case AttachThen(p, _, _) => UserCodeOnTop(w) && p < |w.promises|
       case AttachCatch(p, _) => UserCodeOnTop(w) && p < |w.promises|
       case AttachFinally(p, _) => UserCodeOnTop(w) && p < |w.promises|
       case CallSync => UserCodeOnTop(w)
       case ReturnSync => UserCodeOnTop(w) && Top(w).SyncBody?
       case CallAsync => UserCodeOnTop(w)
       case FinishAsync(_, _) =>
         UserCodeOnTop(w) && Top(w).AsyncBody? && w.frames[Top(w).f].pendingPromise.Some?
       case Await(v) => UserCodeOnTop(w) && Top(w).AsyncBody? && w.callStack != [] && ValueExists(v, w)
       case CallbackReturns(v) =>
         UserCodeOnTop(w) && Top(w).InCallback? && ValueExists(v, w) && RunsUserFunction(Top(w).callback.reaction)
       case CallbackThrows(_) =>
         UserCodeOnTop(w) && Top(w).InCallback? && RunsUserFunction(Top(w).callback.reaction)
  }

  predicate RunsUserFunction(r: Reaction) {
    r.RunThen? || r.RunCatch? || r.RunFinally?
  }

  ghost function Apply(w: World, a: Action): World
    requires Enabled(w, a)
  {
    match a
    case StartMacrotask => Push(w, Macrotask)
    case EndMacrotask => Pop(w)
    case RunMicrotask => StartJob(w.(microtasks := w.microtasks[1..]), w.microtasks[0])
    case StepDelivery => DeliveryTurn(w)
    case NewPromise => AddPromise(w, FreshPromise(None, Constructed))
    case SettleConstructed(p, fulfil, v) => if fulfil then FulfillPromise(w, p, v) else RejectPromise(w, p, v)
    case AttachThen(p, f, r) => Then(w, p, f, r)
    case AttachCatch(p, f) => Catch(w, p, f)
    case AttachFinally(p, f) => Finally(w, p, f)
    case CallSync => Call(w, None)
    case ReturnSync => PopFrame(Pop(w))
    case CallAsync =>
      var promise := |w.promises|;
      Call(AddPromise(w, FreshPromise(None, OfCall)), Some(promise))
    case FinishAsync(fulfil, v) =>
      var p := w.frames[Top(w).f].pendingPromise.value;
      PopFrame(Pop(if fulfil then FulfillPromise(w, p, v) else RejectPromise(w, p, v)))
    case Await(v) =>
      // the frame is current_frame(), the top of the call stack
      assert w.callStack[|w.callStack| - 1] in w.callStack;
      Pop(AwaitIn(w, w.callStack[|w.callStack| - 1], v))
    case CallbackReturns(v) => FinishCallback(Pop(w), Top(w).callback, Top(w).v, Some(v), "")
    case CallbackThrows(error) => FinishCallback(Pop(w), Top(w).callback, Top(w).v, None, error)
  }

  /** w' is reached from w by the actions, each enabled when its turn comes. */
  ghost predicate Run(w: World, actions: seq<Action>, w': World)
    decreases |actions|
  {
    if actions == [] then w' == w
    else Enabled(w, actions[0]) && Run(Apply(w, actions[0]), actions[1..], w')
  }

  ghost predicate Reachable(w: World) {
    exists actions :: Run(INIT, actions, w)
  }
}
