/** The microtask queue over whole runs: jobs start in exactly the order in which they were queued. */
module AsyncQueue {
  import opened Wrappers
  import opened AsyncMachine
  import opened AsyncWellFormed

  /** What of the queue a step leaves alone: everything, or everything but the oldest job. */
  function Waiting(w: World, a: Action): seq<Job>
    requires a.RunMicrotask? ==> w.microtasks != []
  {
    if a.RunMicrotask? then w.microtasks[1..] else w.microtasks
  }

  /** The activation with which a job starts; the check for an unhandled rejection needs none. */
  function Begins(j: Job): seq<Activation> {
    match j
    case Deliver(cs, v) => [Delivering(cs, v, None)]
    case DeliverRejection(p, cs, v) => [Delivering(cs, v, Some(p))]
    case CheckUnhandled(_) => []
    case Resume(f) => [AsyncBody(f)]
  }

  /** Every step adds at the back of the queue, one job at most, and only the step that runs a microtask takes
      one off: the oldest, with which it begins. */
  lemma StepQueues(w: World, a: Action)
    requires Enabled(w, a)
    ensures Waiting(w, a) <= Apply(w, a).microtasks && |Apply(w, a).microtasks| <= |Waiting(w, a)| + 1
    ensures a.RunMicrotask? ==>
              Apply(w, a).microtasks == w.microtasks[1..] && Apply(w, a).control == Begins(w.microtasks[0])
  {
    TopsExist(w);
    hide WellFormed, DeliveryTurn, FinishCallback, React, Mark, AwaitIn, StartJob, Then, Catch, Finally, FulfillPromise,
      RejectPromise;
    match a {
      case StepDelivery => DeliveryQueues(w);
      case RunMicrotask => JobBegins(w.(microtasks := w.microtasks[1..]), w.microtasks[0]);
      case SettleConstructed(p, _, v) => SettleQueues(w, p, v);
      case FinishAsync(_, v) => SettleQueues(w, w.frames[Top(w).f].pendingPromise.value, v);
      case AttachThen(p, f, r) => ThenQueues(w, p, f, r);
      case AttachCatch(p, f) => CatchQueues(w, p, f);
      case AttachFinally(p, f) => FinallyQueues(w, p, f);
      case CallbackReturns(v) => CallbackQueues(Pop(w), Top(w).callback, Top(w).v, Some(v), "");
      case CallbackThrows(error) => CallbackQueues(Pop(w), Top(w).callback, Top(w).v, None, error);
      case Await(v) => AwaitInQueues(w, w.callStack[|w.callStack| - 1], v);
      case _ =>
    }
  }

  /** At most one more job, at the back. */
  ghost predicate Appends(w: World, w': World) {
    w.microtasks <= w'.microtasks && |w'.microtasks| <= |w.microtasks| + 1
  }

  lemma JobBegins(w: World, j: Job)
    requires JobExists(j, |w.promises|, |w.frames|) && w.control == []
    ensures StartJob(w, j).microtasks == w.microtasks && StartJob(w, j).control == Begins(j)
  {
  }

  lemma SettleQueues(w: World, p: PromiseId, v: Value)
    requires p < |w.promises|
    ensures Appends(w, FulfillPromise(w, p, v)) && Appends(w, RejectPromise(w, p, v))
  {
  }

  lemma ThenQueues(w: World, p: PromiseId, f: FunctionId, r: Option<FunctionId>)
    requires p < |w.promises| && ParentsExist(w.promises)
    ensures Appends(w, Then(w, p, f, r))
  {
  }

  lemma CatchQueues(w: World, p: PromiseId, cb: FunctionId)
    requires p < |w.promises| && ParentsExist(w.promises)
    ensures Appends(w, Catch(w, p, cb))
  {
  }

  lemma FinallyQueues(w: World, p: PromiseId, cb: FunctionId)
    requires p < |w.promises|
    ensures Appends(w, Finally(w, p, cb))
  {
  }

  lemma AwaitInQueues(w: World, f: FrameId, v: Value)
    requires f < |w.frames| && ValueExists(v, w) && ParentsExist(w.promises)
    ensures Appends(w, AwaitIn(w, f, v))
  {
  }

  lemma DeliveryQueues(w: World)
    requires Enabled(w, StepDelivery)
    ensures Appends(w, DeliveryTurn(w))
  {
    if Top(w).rest != [] {
      assert CallbackExists(Top(w).rest[0], |w.promises|, |w.frames|);
    }
  }

  lemma CallbackQueues(w: World, c: Callback, v: Value, res: Option<Value>, error: string)
    requires CallbackExists(c, |w.promises|, |w.frames|) && (res.Some? ==> ValueExists(res.value, w))
    requires RunsUserFunction(c.reaction)
    ensures Appends(w, FinishCallback(w, c, v, res, error))
  {
  }

  /** The jobs that the actions take off the queue, in turn. */
  ghost function Started(w: World, actions: seq<Action>, w': World): (jobs: seq<Job>)
    requires Run(w, actions, w')
    decreases |actions|
  {
    if actions == [] then []
    else (if actions[0].RunMicrotask? then [w.microtasks[0]] else [])
         + Started(Apply(w, actions[0]), actions[1..], w')
  }

  /** The jobs that they put behind those already waiting, in turn. */
  ghost function Queued(w: World, actions: seq<Action>, w': World): (jobs: seq<Job>)
    requires Run(w, actions, w')
    decreases |actions|
  {
    if actions == [] then []
    else
      var w1 := Apply(w, actions[0]);
      StepQueues(w, actions[0]);
      w1.microtasks[|Waiting(w, actions[0])|..] + Queued(w1, actions[1..], w')
  }

  lemma Passes(before: seq<Job>, taken: seq<Job>, waiting: seq<Job>, after: seq<Job>, queued: seq<Job>,
               started: seq<Job>, rest: seq<Job>)
    requires before == taken + waiting && waiting <= after && after + queued == started + rest
    ensures before + (after[|waiting|..] + queued) == taken + started + rest
  {
    assert after == waiting + after[|waiting|..];
    calc {
      before + (after[|waiting|..] + queued);
      taken + (waiting + after[|waiting|..] + queued);
      taken + (started + rest);
    }
  }

  /** First in, first out. In a run from the empty world, Started is a prefix of Queued. */
  lemma {:induction false} FirstInFirstOut(w: World, actions: seq<Action>, w': World)
    requires Run(w, actions, w')
    ensures w.microtasks + Queued(w, actions, w') == Started(w, actions, w') + w'.microtasks
    decreases |actions|
  {
    if actions != [] {
      var a, w1 := actions[0], Apply(w, actions[0]);
      StepQueues(w, a);
      FirstInFirstOut(w1, actions[1..], w');
      var taken := if a.RunMicrotask? then [w.microtasks[0]] else [];
      Passes(w.microtasks, taken, Waiting(w, a), w1.microtasks, Queued(w1, actions[1..], w'),
        Started(w1, actions[1..], w'), w'.microtasks);
    }
  }

  /** A job with k others before it is the (k + 1)-th that any run starts, or waits with those of the k still to come
      before it. */
  lemma StartsInTurn(w: World, actions: seq<Action>, w': World, k: nat)
    requires Run(w, actions, w') && k < |w.microtasks|
    ensures var started := Started(w, actions, w');
            if k < |started| then started[k] == w.microtasks[k] && started[..k] == w.microtasks[..k]
            else |started| <= k < |started| + |w'.microtasks| && w'.microtasks[k - |started|] == w.microtasks[k]
                 && w'.microtasks[..k - |started|] == w.microtasks[|started|..k]
  {
    hide *;
    FirstInFirstOut(w, actions, w');
    InTurn(w.microtasks, Queued(w, actions, w'), Started(w, actions, w'), w'.microtasks, k);
  }

  lemma InTurn(before: seq<Job>, queued: seq<Job>, started: seq<Job>, after: seq<Job>, k: nat)
    requires before + queued == started + after && k < |before|
    ensures if k < |started| then started[k] == before[k] && started[..k] == before[..k]
            else |started| <= k < |started| + |after| && after[k - |started|] == before[k]
                 && after[..k - |started|] == before[|started|..k]
  {
    var all := before + queued;
    assert all[..k] == before[..k] && all[k] == before[k];
    if k < |started| {
      assert all[..k] == started[..k];
    } else {
      assert all[|started|..k] == after[..k - |started|];
      assert all[|started|..k] == before[|started|..k];
    }
  }

  /** A then attached to a fulfilled promise before it is awaited: its callback is queued before the resumption. */
  lemma ThenBeforeAwait(w: World, p: PromiseId, f: FunctionId, r: Option<FunctionId>)
    requires Enabled(w, AttachThen(p, f, r)) && w.promises[p].status == Fulfilled
    requires Top(w).AsyncBody? && w.callStack != []
    ensures var w1 := Apply(w, AttachThen(p, f, r));
            && Enabled(w1, Await(PromiseRef(p)))
            && var reaction := Callback(p, w.promises[p].attached, RunThen(|w.promises|, f, r, false));
               Apply(w1, Await(PromiseRef(p))).microtasks
               == w.microtasks
                  + [Deliver([reaction], w.promises[p].result), Resume(w.callStack[|w.callStack| - 1])]
  {
    var a, w1 := AttachThen(p, f, r), Then(w, p, f, r);
    ThenOnFulfilled(w, p, f, r);
    assert w.callStack[|w.callStack| - 1] in w.callStack;
    WfStep(w, a);
    assert Apply(w, a) == w1;
    hide Then, WellFormed, Mark;
    assert Enabled(w1, Await(PromiseRef(p)));
    AwaitQueues(w1, PromiseRef(p));
  }

  lemma ThenOnFulfilled(w: World, p: PromiseId, f: FunctionId, r: Option<FunctionId>)
    requires p < |w.promises| && ParentsExist(w.promises) && w.promises[p].status == Fulfilled
    ensures var w1 := Then(w, p, f, r);
            && w1.microtasks
               == w.microtasks + [Deliver([Callback(p, w.promises[p].attached, RunThen(|w.promises|, f, r, false))],
                                          w.promises[p].result)]
            && w1.callStack == w.callStack && w1.control == w.control && |w1.frames| == |w.frames|
            && |w1.promises| == |w.promises| + 1 && w1.promises[p].status == Fulfilled
  {
  }

  /** The frame that awaits is suspended and off the call stack. A value that is no promise is what it will be told;
      its resumption is queued at once, as it is for a promise that has ended, and for a pending one nothing is. */
  lemma AwaitQueues(w: World, v: Value)
    requires Enabled(w, Await(v))
    ensures var f, w' := w.callStack[|w.callStack| - 1], Apply(w, Await(v));
            && f < |w'.frames| && w'.frames[f].isSuspended && w'.callStack == w.callStack[..|w.callStack| - 1]
            && w'.suspendedFrames == w.suspendedFrames + [f] && w'.frames[f].awaited.Some?
            && var a := w'.frames[f].awaited.value;
               if v.PromiseRef? && w.promises[v.p].status == Pending
               then w'.microtasks == w.microtasks && a == Awaited(v.p, None)
               else w'.microtasks == w.microtasks + [Resume(f)] && a.stamp.Some?
                    && (!v.PromiseRef? ==> a.stamp == Some(Stamp(false, v)))
  {
    assert w.callStack[|w.callStack| - 1] in w.callStack;
  }
}
