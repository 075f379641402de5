/** The evaluator with its state in fields, updated in place by its own routines. Perform runs any step of the machine
    with them, from any state that keeps the invariant, and every such step keeps it. */
module EvaluatorState {
  import opened Wrappers
  import opened AsyncMachine
  import opened AsyncWellFormed
  import opened AsyncOwnership
  import opened AsyncSafety
  import opened AsyncOrder
  import opened AsyncValues
  import opened AsyncQueue

  class Evaluator {
    var promises: seq<Promise>
    var frames: seq<Frame>
    var microtasks: seq<Job>
    var callStack: seq<FrameId>
    var suspendedFrames: seq<FrameId>
    var reports: seq<PromiseId>
    /** The native stack, as far as the machine sees it. */
    var control: seq<Activation>

    constructor ()
      ensures View() == INIT && Valid()
    {
      promises, frames, microtasks, callStack, suspendedFrames, reports := [], [], [], [], [], [];
      control := [];
    }

    ghost predicate Valid()
      reads this
    {
      Inv(View())
    }

    ghost function View(): World
      reads this
    {
      World(promises, frames, microtasks, callStack, suspendedFrames, control, reports)
    }

    // ---------- the frame lists ----------

    method PushCallFrame(f: FrameId)
      modifies this`callStack
      ensures View() == PushFrame(old(View()), f)
    {
      callStack := callStack + [f];
    }

    method PopCallFrame()
      modifies this`callStack
      ensures View() == PopFrame(old(View()))
    {
      if callStack != [] {
        callStack := callStack[..|callStack| - 1];
      }
    }

    method CurrentFrame() returns (f: Option<FrameId>)
      ensures f == if callStack == [] then None else Some(callStack[|callStack| - 1])
    {
      if callStack == [] { return None; }
      return Some(callStack[|callStack| - 1]);
    }

    /** Searches for the frame and erases it, if it is there. */
    method RemoveSuspendedFrame(f: FrameId)
      modifies this`suspendedFrames
      ensures suspendedFrames == Remove(old(suspendedFrames), f)
    {
      var i := 0;
      while i < |suspendedFrames| && suspendedFrames[i] != f
        invariant 0 <= i <= |suspendedFrames|
        invariant suspendedFrames == old(suspendedFrames)
        invariant Remove(suspendedFrames, f) == suspendedFrames[..i] + Remove(suspendedFrames[i..], f)
      {
        RemoveGoesOn(suspendedFrames, f, i);
        i := i + 1;
      }
      if i < |suspendedFrames| {
        RemoveGoesOn(suspendedFrames, f, i);
        suspendedFrames := suspendedFrames[..i] + suspendedFrames[i + 1..];
      }
    }

    // ---------- promises ----------

    method EnqueueMicrotask(job: Job)
      modifies this`microtasks
      ensures View() == Enqueue(old(View()), job)
    {
      microtasks := microtasks + [job];
    }

    method SettleWith(p: PromiseId, status: Status, v: Value, job: Job)
      requires p < |promises|
      modifies this`promises, this`microtasks
      ensures View() == Settle(old(View()), p, status, v, job)
    {
      promises := promises[p := promises[p].(status := status, result := v)];
      EnqueueMicrotask(job);
    }

    method FulfillPromiseWith(p: PromiseId, v: Value)
      requires p < |promises|
      modifies this`promises, this`microtasks
      ensures View() == FulfillPromise(old(View()), p, v)
    {
      if promises[p].status != Pending { return; }
      SettleWith(p, Fulfilled, v, Deliver(promises[p].thenCallbacks, v));
    }

    method RejectPromiseWith(p: PromiseId, reason: Value)
      requires p < |promises|
      modifies this`promises, this`microtasks
      ensures View() == RejectPromise(old(View()), p, reason)
    {
      if promises[p].status != Pending { return; }
      SettleWith(p, Rejected, reason, DeliverRejection(p, promises[p].catchCallbacks, reason));
    }

    /** resolve_next and reject_next do not look at the state: whoever calls them must know it is pending. */
    method ResolveNextWith(n: PromiseId, v: Value)
      requires n < |promises| && promises[n].status == Pending
      modifies this`promises, this`microtasks
      ensures View() == ResolveNext(old(View()), n, v)
      ensures promises[n].status == Fulfilled && promises[n].result == v
    {
      SettleWith(n, Fulfilled, v, Deliver(promises[n].thenCallbacks, v));
    }

    method RejectNextWith(n: PromiseId, r: Value)
      requires n < |promises| && promises[n].status == Pending
      modifies this`promises, this`microtasks
      ensures View() == RejectNext(old(View()), n, r)
      ensures promises[n].status == Rejected && promises[n].result == r
    {
      SettleWith(n, Rejected, r, Deliver(promises[n].catchCallbacks, r));
    }

    /** Walks up the parent links until it falls off or meets a promise already handled. */
    method MarkPromiseAndAncestorsHandled(start: Option<PromiseId>)
      requires ParentsExist(promises) && (start.Some? ==> start.value < |promises|)
      modifies this`promises
      ensures promises == if start.Some? then MarkHandled(old(promises), start.value) else old(promises)
    {
      var p: Option<PromiseId> := start;
      while p.Some?
        invariant ParentsExist(promises) && |promises| == |old(promises)| && (p.Some? ==> p.value < |promises|)
        invariant (if p.Some? then MarkHandled(promises, p.value) else promises)
               == if start.Some? then MarkHandled(old(promises), start.value) else old(promises)
        decreases Unhandled(promises), p.Some?
      {
        if promises[p.value].handled { break; }
        ghost var before := promises;
        UnhandledDrops(promises, p.value);
        promises := promises[p.value := promises[p.value].(handled := true)];
        assert MarkHandled(before, p.value)
            == if before[p.value].parent.Some? then MarkHandled(promises, before[p.value].parent.value) else promises;
        p := promises[p.value].parent;
      }
    }

    /** Pushes a pair onto the lists of a pending promise, or queues the one that applies. */
    method AttachPair(p: PromiseId, onFulfilled: Reaction, onRejected: Reaction)
      requires p < |promises|
      modifies this`promises, this`microtasks
      ensures View() == React(old(View()), p, onFulfilled, onRejected)
    {
      var x := promises[p];
      var c0, c1 := Callback(p, x.attached, onFulfilled), Callback(p, x.attached, onRejected);
      match x.status {
        case Pending =>
          promises := promises[p := x.(thenCallbacks := x.thenCallbacks + [c0],
                                       catchCallbacks := x.catchCallbacks + [c1], attached := x.attached + 1)];
        case Fulfilled =>
          promises := promises[p := x.(attached := x.attached + 1)];
          EnqueueMicrotask(Deliver([c0], x.result));
        case Rejected =>
          promises := promises[p := x.(attached := x.attached + 1)];
          EnqueueMicrotask(Deliver([c1], x.result));
      }
    }

    /** run_cb_and_chain, from the return of the user's callback on: a promise is linked, anything else fulfils. */
    method ChainResult(n: PromiseId, res: Value)
      requires n < |promises| && promises[n].status == Pending && (res.PromiseRef? ==> res.p < |promises|)
      modifies this`promises, this`microtasks
      ensures View() == Chain(old(View()), n, res)
    {
      if !res.PromiseRef? {
        ResolveNextWith(n, res);
      } else if promises[res.p].status == Fulfilled {
        ResolveNextWith(n, promises[res.p].result);
      } else if promises[res.p].status == Pending {
        AttachPair(res.p, ResolveNextLater(n), RejectNextLater(n));
        promises := promises[res.p := promises[res.p].(parent := Some(n))];
      } else {
        RejectNextWith(n, promises[res.p].result);
      }
    }

    method PromiseThen(p: PromiseId, f: FunctionId, r: Option<FunctionId>) returns (next: PromiseId)
      requires p < |promises| && ParentsExist(promises)
      modifies this`promises, this`microtasks
      ensures next == |old(promises)| && View() == Then(old(View()), p, f, r)
    {
      next := |promises|;
      promises := promises + [FreshPromise(Some(p), Derived)];
      if r.Some? {
        MarkPromiseAndAncestorsHandled(Some(p));
        assert View() == Mark(AddPromise(old(View()), FreshPromise(Some(p), Derived)), p);
      }
      if promises[p].status == Rejected && r.None? {
        AttachPair(p, RunThen(next, f, r, false), RejectNextLater(next));
      } else {
        AttachPair(p, RunThen(next, f, r, false), RunThen(next, f, r, true));
      }
    }

    method PromiseCatch(p: PromiseId, cb: FunctionId) returns (next: PromiseId)
      requires p < |promises| && ParentsExist(promises)
      modifies this`promises, this`microtasks
      ensures next == |old(promises)| && View() == Catch(old(View()), p, cb)
    {
      next := |promises|;
      promises := promises + [FreshPromise(Some(p), Derived)];
      MarkPromiseAndAncestorsHandled(Some(p));
      AttachPair(p, ResolveNextLater(next), RunCatch(next, cb));
    }

    method PromiseFinally(p: PromiseId, cb: FunctionId) returns (next: PromiseId)
      requires p < |promises|
      modifies this`promises, this`microtasks
      ensures next == |old(promises)| && View() == Finally(old(View()), p, cb)
    {
      next := |promises|;
      promises := promises + [FreshPromise(Some(p), Derived)];
      AttachPair(p, RunFinally(next, cb, false), RunFinally(next, cb, true));
    }

    /** await: stamps or registers, suspends the current frame and leaves the call stack. */
    method AwaitValue(v: Value)
      requires callStack != [] && callStack[|callStack| - 1] < |frames|
      requires (v.PromiseRef? ==> v.p < |promises|) && ParentsExist(promises)
      modifies this`promises, this`microtasks, this`frames, this`suspendedFrames, this`callStack
      ensures View() == AwaitIn(old(View()), old(callStack[|callStack| - 1]), v)
    {
      var current := CurrentFrame();
      var f := current.value;
      var awaited: Awaited;
      if !v.PromiseRef? {
        awaited := Awaited(|promises|, Some(Stamped(false, v)));
        promises := promises + [FreshPromise(None, Constructed).(status := Fulfilled, result := v)];
        EnqueueMicrotask(Resume(f));
      } else if promises[v.p].status == Fulfilled {
        awaited := Awaited(v.p, Some(Stamped(false, promises[v.p].result)));
        EnqueueMicrotask(Resume(f));
      } else if promises[v.p].status == Rejected {
        awaited := Awaited(v.p, Some(Stamped(true, promises[v.p].result)));
        MarkPromiseAndAncestorsHandled(Some(v.p));
        EnqueueMicrotask(Resume(f));
      } else {
        awaited := Awaited(v.p, None);
        MarkPromiseAndAncestorsHandled(Some(v.p));
        AttachPair(v.p, WakeFrame(f, false), WakeFrame(f, true));
      }
      assert View() == Register(old(View()), f, v);
      frames := frames[f := frames[f].(isSuspended := true, awaited := Some(awaited))];
      suspendedFrames := suspendedFrames + [f];
      PopCallFrame();
    }

    /** The reaction await attached: stamps the frame and queues its resumption. */
    method Wake(f: FrameId, s: Stamp)
      requires f < |frames|
      modifies this`frames, this`microtasks
      ensures View() == Enqueue(StampFrame(old(View()), f, s), Resume(f))
    {
      if frames[f].awaited.Some? {
        frames := frames[f := frames[f].(awaited := Some(frames[f].awaited.value.(stamp := Some(s))))];
      }
      EnqueueMicrotask(Resume(f));
    }

    /** The microtask that moves a frame from the suspended ones back onto the call stack. */
    method ResumeSuspended(f: FrameId)
      requires f < |frames|
      modifies this`frames, this`suspendedFrames, this`callStack, this`control
      ensures View() == ResumeFrame(old(View()), f)
    {
      RemoveSuspendedFrame(f);
      var present := f in callStack;
      if !present {
        PushCallFrame(f);
      }
      frames := frames[f := frames[f].(isSuspended := false)];
      control := control + [AsyncBody(f)];
    }

    /** The check microtask queued after a rejection was delivered. */
    method CheckRejection(p: PromiseId)
      requires p < |promises|
      modifies this`promises, this`reports
      ensures View() == StartJob(old(View()), CheckUnhandled(p))
    {
      if !promises[p].handled && !promises[p].reported {
        promises := promises[p := promises[p].(reported := true)];
        reports := reports + [p];
      }
    }

    method EnterFunction(promise: Option<PromiseId>)
      modifies this`frames, this`callStack, this`control
      ensures View() == Call(old(View()), promise)
    {
      var f := |frames|;
      frames := frames + [Frame(promise, false, None)];
      PushCallFrame(f);
      control := control + [if promise.Some? then AsyncBody(f) else SyncBody(f)];
    }

    method LeaveFunction()
      requires control != []
      modifies this`control, this`callStack
      ensures View() == PopFrame(Pop(old(View())))
    {
      control := control[..|control| - 1];
      PopCallFrame();
    }

    // ---------- the event loop ----------

    /** Takes the oldest microtask off the queue and starts it. */
    method RunMicrotaskNow()
      requires Valid() && Enabled(View(), RunMicrotask)
      modifies this
      ensures View() == Apply(old(View()), RunMicrotask)
    {
      var j := microtasks[0];
      assert JobExists(j, |promises|, |frames|);
      microtasks := microtasks[1..];
      match j {
        case Deliver(cs, v) => control := control + [Delivering(cs, v, None)];
        case DeliverRejection(p, cs, v) => control := control + [Delivering(cs, v, Some(p))];
        case CheckUnhandled(p) => CheckRejection(p);
        case Resume(f) => ResumeSuspended(f);
      }
    }

    /** One callback of a snapshot, up to the user function it calls. */
    method StartReaction(c: Callback, v: Value)
      requires CallbackExists(c, |promises|, |frames|)
      requires StartChange(c, v).Settling? ==> promises[c.reaction.next].status == Pending
      modifies this`promises, this`microtasks, this`frames, this`control
      ensures View() == StartCallback(old(View()), c, v)
    {
      match c.reaction {
        case RunThen(next, _, onRejected, wasRejected) =>
          if wasRejected && onRejected.None? {
            RejectNextWith(next, v);
          } else {
            control := control + [InCallback(c, v)];
          }
        case RunCatch(_, _) => control := control + [InCallback(c, v)];
        case RunFinally(_, _, _) => control := control + [InCallback(c, v)];
        case ResolveNextLater(next) => ResolveNextWith(next, v);
        case RejectNextLater(next) => RejectNextWith(next, v);
        case WakeFrame(f, threw) => Wake(f, Stamped(threw, v));
      }
    }

    /** One turn of the loop over a snapshot, or the end of its microtask. */
    method DeliverNext()
      requires Valid() && Enabled(View(), StepDelivery)
      modifies this
      ensures View() == Apply(old(View()), StepDelivery)
    {
      var Delivering(rest, v, check) := control[|control| - 1];
      if rest != [] {
        var c := rest[0];
        assert CallbackExists(c, |promises|, |frames|);
        SettlerIsHolder(View());
        control := control[..|control| - 1] + [Delivering(rest[1..], v, check)];
        promises := promises[c.source := promises[c.source].(ran := promises[c.source].ran + [c.ticket])];
        assert View() == TakeFirst(old(View()));
        StartReaction(c, v);
      } else {
        control := control[..|control| - 1];
        if check.Some? {
          if !promises[check.value].checkScheduled {
            promises := promises[check.value := promises[check.value].(checkScheduled := true)];
            EnqueueMicrotask(CheckUnhandled(check.value));
          }
        }
      }
    }

    /** The end of a reaction: res is what the user function returned, None if it threw. */
    method FinishReaction(c: Callback, v: Value, res: Option<Value>, error: string)
      requires CallbackExists(c, |promises|, |frames|)
      requires res.Some? && res.value.PromiseRef? ==> res.value.p < |promises|
      requires RunsUserFunction(c.reaction) && promises[c.reaction.next].status == Pending
      modifies this`promises, this`microtasks
      ensures View() == FinishCallback(old(View()), c, v, res, error)
    {
      var next := c.reaction.next;
      if c.reaction.RunFinally? {
        if c.reaction.wasRejected {
          RejectNextWith(next, v);
        } else {
          ResolveNextWith(next, v);
        }
      } else if res.Some? {
        ChainResult(next, res.value);
      } else {
        RejectNextWith(next, Text(error));
      }
    }

    /** Any step of the machine, done in place: the invariant is kept, and the step settles, attaches and sends out no
        more than its own change. A promise it settles was pending before, and what was settled stays. It queues at the
        back, and what it takes off the queue is the oldest job. */
    method Perform(a: Action)
      requires Valid() && Enabled(View(), a)
      modifies this
      ensures Valid() && View() == Apply(old(View()), a)
      ensures Changes(old(View()), View(), old(ChangeOf(View(), a)))
      ensures forall p | 0 <= p < |old(promises)| && old(promises[p]).status != Pending ::
                SameOutcome(old(promises[p]), promises[p])
      ensures (if a.RunMicrotask? then old(microtasks[1..]) else old(microtasks)) <= microtasks
      ensures a.RunMicrotask? ==> control == Begins(old(microtasks[0]))
    {
      StepInv(View(), a);
      StepChanges(View(), a);
      StepQueues(View(), a);
      TopsExist(View());
      hide Inv, Changes;
      match a {
        case RunMicrotask => RunMicrotaskNow();
        case StepDelivery => DeliverNext();
        case CallbackReturns(v) => PerformReturn(a, Some(v), "");
        case CallbackThrows(error) => PerformReturn(a, None, error);
        case _ => PerformUser(a);
      }
    }

    method PerformReturn(a: Action, res: Option<Value>, error: string)
      requires Valid() && Enabled(View(), a)
      requires a == if res.Some? then CallbackReturns(res.value) else CallbackThrows(error)
      requires res.Some? ==> error == ""
      modifies this
      ensures View() == Apply(old(View()), a)
    {
      var InCallback(c, v) := control[|control| - 1];
      CallbackChanges(View(), a);
      TopsExist(View());
      control := control[..|control| - 1];
      FinishReaction(c, v, res, error);
    }

    /** The steps that user code takes, and the borders of a macrotask. */
    method PerformUser(a: Action)
      requires Enabled(View(), a)
      requires !a.RunMicrotask? && !a.StepDelivery? && !a.CallbackReturns? && !a.CallbackThrows?
      modifies this
      ensures View() == Apply(old(View()), a)
    {
      TopsExist(View());
      match a {
        case StartMacrotask => control := control + [Macrotask];
        case EndMacrotask => control := control[..|control| - 1];
        case NewPromise => promises := promises + [FreshPromise(None, Constructed)];
        case SettleConstructed(p, fulfil, v) => SettleGuarded(p, fulfil, v);
        case AttachThen(p, f, r) => var _ := PromiseThen(p, f, r);
        case AttachCatch(p, f) => var _ := PromiseCatch(p, f);
        case AttachFinally(p, f) => var _ := PromiseFinally(p, f);
        case CallSync => EnterFunction(None);
        case CallAsync =>
          promises := promises + [FreshPromise(None, OfCall)];
          EnterFunction(Some(|promises| - 1));
        case ReturnSync => LeaveFunction();
        case FinishAsync(fulfil, v) =>
          SettleGuarded(frames[control[|control| - 1].f].pendingPromise.value, fulfil, v);
          LeaveFunction();
        case Await(v) =>
          AwaitValue(v);
          control := control[..|control| - 1];
        case _ => assert false;
      }
    }

    method SettleGuarded(p: PromiseId, fulfil: bool, v: Value)
      requires p < |promises|
      modifies this`promises, this`microtasks
      ensures View() == if fulfil then FulfillPromise(old(View()), p, v) else RejectPromise(old(View()), p, v)
    {
      if fulfil {
        FulfillPromiseWith(p, v);
      } else {
        RejectPromiseWith(p, v);
      }
    }
  }

  /** Past one more frame of the list. */
  lemma RemoveGoesOn(s: seq<FrameId>, f: FrameId, i: nat)
    requires i < |s|
    ensures s[..i] + Remove(s[i..], f) == if s[i] == f then s[..i] + s[i + 1..] else s[..i + 1] + Remove(s[i + 1..], f)
  {
    hide Remove;
    var t := s[i..];
    assert t[0] == s[i] && t[1..] == s[i + 1..];
    RemoveFirst(t, f);
    assert s[..i + 1] == s[..i] + [s[i]];
  }

  lemma RemoveFirst(t: seq<FrameId>, f: FrameId)
    requires t != []
    ensures Remove(t, f) == if t[0] == f then t[1..] else [t[0]] + Remove(t[1..], f)
  {
  }

  /** The callback a turn of the loop is about to start finds the promise it will settle pending. */
  lemma SettlerIsHolder(w: World)
    requires Inv(w) && Enabled(w, StepDelivery) && Top(w).rest != []
    ensures var c := Top(w).rest[0];
            CallbackExists(c, |w.promises|, |w.frames|)
            && (StartChange(c, Top(w).v).Settling? ==> TakeFirst(w).promises[c.reaction.next].status == Pending)
  {
    var c := Top(w).rest[0];
    assert CallbackExists(c, |w.promises|, |w.frames|);
    if StartChange(c, Top(w).v).Settling? {
      DeliveryFindsPending(w);
    }
    hide Inv;
  }
}
