/** The step machine and the code it runs: whatever else happens in a run, the frame of an async call executes its code
    from await to await, is told at each the outcome of the very promise it awaited, and settles the call's promise with
    what the code ends in. */
module AsyncDriven {
  import opened Wrappers
  import opened AsyncMachine
  import opened AsyncWellFormed
  import opened AsyncOwnership
  import opened AsyncFrames
  import opened AsyncSafety
  import opened AsyncOrder
  import opened AsyncValues
  import opened AsyncStamps
  import opened AsyncCalls

  // ---------- code, and a frame that runs it ----------

  /** Where the code of a frame gets to when it runs: an await, or its end. */
  datatype Turn<X> = Pauses(x: X, v: Value) | Ends(fulfil: bool, v: Value)

  datatype Code<!X> = Code(run: X -> Turn<X>, answer: (X, Stamp) -> X)

  /** Ready to run from x; parked or over, having run from x. */
  datatype Stage<X> = Ready(x: X) | Parked(x: X) | Over(x: X)

  /** The awaited values so far, each with what the frame was told. */
  type Trace = seq<(Value, Stamp)>

  ghost predicate Runs(w: World, f: FrameId) {
    w.control != [] && Top(w) == AsyncBody(f)
  }

  /** While it is f that runs, it awaits and ends as its code says. Nothing is said of any other step. */
  ghost predicate Obeys<X>(w: World, a: Action, f: FrameId, code: Code<X>, stage: Stage<X>) {
    stage.Ready? && Runs(w, f) ==>
      && (a.Await? ==> code.run(stage.x).Pauses? && a.v == code.run(stage.x).v)
      && (a.FinishAsync? ==> code.run(stage.x) == Ends(a.fulfil, a.v))
  }

  ghost predicate Resumes(w: World, a: Action, f: FrameId) {
    a.RunMicrotask? && w.microtasks != [] && w.microtasks[0] == Resume(f)
  }

  ghost function StampOf(w: World, f: FrameId): Stamp {
    if f < |w.frames| && w.frames[f].awaited.Some? && w.frames[f].awaited.value.stamp.Some?
    then w.frames[f].awaited.value.stamp.value else Stamp(false, Undefined)
  }

  ghost function NextStage<X>(w: World, a: Action, f: FrameId, code: Code<X>, stage: Stage<X>): Stage<X> {
    match stage
    case Ready(x) =>
      if Runs(w, f) && a.Await? then Parked(x) else if Runs(w, f) && a.FinishAsync? then Over(x) else stage
    case Parked(x) =>
      if Resumes(w, a, f) && code.run(x).Pauses? then Ready(code.answer(code.run(x).x, StampOf(w, f))) else stage
    case Over(_) => stage
  }

  ghost function NextTrace<X>(w: World, a: Action, f: FrameId, code: Code<X>, stage: Stage<X>, trace: Trace): Trace {
    if stage.Parked? && Resumes(w, a, f) && code.run(stage.x).Pauses?
    then trace + [(code.run(stage.x).v, StampOf(w, f))] else trace
  }

  /** Where the code stands once it has been told all of the trace. */
  function LedTo<X>(code: Code<X>, x0: X, trace: Trace): Option<X> {
    if trace == [] then Some(x0)
    else
      var n := |trace| - 1;
      match LedTo(code, x0, trace[..n])
      case None => None
      case Some(y) =>
        if code.run(y).Pauses? && code.run(y).v == trace[n].0
        then Some(code.answer(code.run(y).x, trace[n].1)) else None
  }

  /** s is how awaiting v must end: as the promise v has ended, or with the plain value v itself. */
  ghost predicate Outcome(w: World, v: Value, s: Stamp) {
    if v.PromiseRef? then
      && v.p < |w.promises| && w.promises[v.p].status != Pending
      && s == Stamped(w.promises[v.p].status == Rejected, w.promises[v.p].result)
    else s == Stamp(false, v)
  }

  /** p is what an await of v waits for. */
  ghost predicate StandsFor(w: World, p: PromiseId, v: Value) {
    p < |w.promises| &&
    if v.PromiseRef? then v.p == p else w.promises[p].status == Fulfilled && w.promises[p].result == v
  }

  /** p is the promise of the call that runs in frame f, and of no other. */
  ghost predicate PromiseOf(w: World, f: FrameId, p: PromiseId) {
    && f < |w.frames| && p < |w.promises| && w.promises[p].origin == OfCall
    && forall g | 0 <= g < |w.frames| :: w.frames[g].pendingPromise == Some(p) <==> g == f
  }

  /** The frame is where its code is, everything it has been told is true, and its promise is settled only at the end,
      and then as the code ended. */
  ghost predicate Follows<X>(w: World, f: FrameId, p: PromiseId, code: Code<X>, x0: X, stage: Stage<X>, trace: Trace) {
    && PromiseOf(w, f, p)
    && (forall i | 0 <= i < |trace| :: Outcome(w, trace[i].0, trace[i].1))
    && LedTo(code, x0, trace) == Some(stage.x)
    && match stage
       case Ready(_) => w.promises[p].status == Pending && AsyncBody(f) in w.control
       case Parked(x) =>
         && w.promises[p].status == Pending && f in w.suspendedFrames && code.run(x).Pauses?
         && w.frames[f].awaited.Some? && StandsFor(w, w.frames[f].awaited.value.p, code.run(x).v)
       case Over(x) =>
         && code.run(x).Ends?
         && w.promises[p].status == (if code.run(x).fulfil then Fulfilled else Rejected)
         && w.promises[p].result == code.run(x).v
  }

  // ---------- what one step leaves alone ----------

  /** Frames keep their promises, and a new frame gets a new promise or none. */
  ghost predicate PromisesKept(w: World, w': World) {
    && |w.frames| <= |w'.frames|
    && (forall g | 0 <= g < |w.frames| :: w'.frames[g].pendingPromise == w.frames[g].pendingPromise)
    && forall g | |w.frames| <= g < |w'.frames| ::
         w'.frames[g].pendingPromise.Some? ==> w'.frames[g].pendingPromise.value >= |w.promises|
  }

  lemma DeliveryKeepsPromises(w: World)
    requires Enabled(w, StepDelivery)
    ensures PromisesKept(w, Apply(w, StepDelivery)) && Apply(w, StepDelivery).suspendedFrames == w.suspendedFrames
  {
    if Top(w).rest != [] {
      assert CallbackExists(Top(w).rest[0], |w.promises|, |w.frames|);
      hide WellFormed;
    }
  }

  lemma FinishKeepsPromises(w: World, c: Callback, v: Value, res: Option<Value>, error: string)
    requires CallbackExists(c, |w.promises|, |w.frames|) && (res.Some? ==> ValueExists(res.value, w))
    requires RunsUserFunction(c.reaction)
    ensures var w' := FinishCallback(w, c, v, res, error);
            PromisesKept(w, w') && w'.suspendedFrames == w.suspendedFrames
  {
  }

  lemma MicrotaskKeepsPromises(w: World)
    requires Enabled(w, RunMicrotask)
    ensures PromisesKept(w, Apply(w, RunMicrotask))
    ensures forall f | f in w.suspendedFrames && w.microtasks[0] != Resume(f) ::
              f in Apply(w, RunMicrotask).suspendedFrames
  {
    assert JobExists(w.microtasks[0], |w.promises|, |w.frames|);
    hide WellFormed;
    if w.microtasks[0].Resume? {
      forall f | f in w.suspendedFrames && w.microtasks[0] != Resume(f)
        ensures f in Remove(w.suspendedFrames, w.microtasks[0].f)
      {
        RemoveSpares(w.suspendedFrames, w.microtasks[0].f, f);
      }
    }
  }

  lemma {:induction false} RemoveSpares(s: seq<FrameId>, g: FrameId, f: FrameId)
    requires f in s && f != g
    ensures f in Remove(s, g)
  {
    if s[0] != g && s[0] != f {
      RemoveSpares(s[1..], g, f);
    }
  }

  lemma AwaitKeepsPromises(w: World, v: Value)
    requires Enabled(w, Await(v))
    ensures PromisesKept(w, Apply(w, Await(v)))
    ensures Apply(w, Await(v)).suspendedFrames == w.suspendedFrames + [w.callStack[|w.callStack| - 1]]
  {
    TopsExist(w);
    RegisterKeeps(w, w.callStack[|w.callStack| - 1], v);
    hide WellFormed;
  }

  lemma PlainKeepsPromises(w: World, a: Action)
    requires Enabled(w, a) && !a.Await? && !a.RunMicrotask? && !a.StepDelivery?
    requires !a.CallbackReturns? && !a.CallbackThrows?
    ensures PromisesKept(w, Apply(w, a)) && Apply(w, a).suspendedFrames == w.suspendedFrames
  {
    TopsExist(w);
    hide WellFormed;
  }

  lemma StepKeepsPromises(w: World, a: Action)
    requires Enabled(w, a)
    ensures PromisesKept(w, Apply(w, a))
    ensures forall f | f in w.suspendedFrames && !Resumes(w, a, f) :: f in Apply(w, a).suspendedFrames
  {
    TopsExist(w);
    match a
    case StepDelivery => DeliveryKeepsPromises(w);
    case CallbackReturns(v) => FinishKeepsPromises(Pop(w), Top(w).callback, Top(w).v, Some(v), "");
    case CallbackThrows(error) => FinishKeepsPromises(Pop(w), Top(w).callback, Top(w).v, None, error);
    case RunMicrotask => MicrotaskKeepsPromises(w);
    case Await(v) => AwaitKeepsPromises(w, v);
    case _ => PlainKeepsPromises(w, a);
  }

  lemma StepKeepsPromiseOf(w: World, a: Action, f: FrameId, p: PromiseId)
    requires Inv(w) && Enabled(w, a) && PromiseOf(w, f, p)
    ensures PromiseOf(Apply(w, a), f, p)
  {
    StepInv(w, a);
    StepKeepsPromises(w, a);
    assert Advances(w, Apply(w, a), p);
    hide Inv, Enabled, Apply, Resumes;
  }

  /** A running body stays on the native stack until it awaits or ends. */
  lemma BodyStays(w: World, a: Action, f: FrameId)
    requires Enabled(w, a) && AsyncBody(f) in w.control && !(Runs(w, f) && (a.Await? || a.FinishAsync?))
    ensures AsyncBody(f) in Apply(w, a).control
  {
    var i :| 0 <= i < |w.control| && w.control[i] == AsyncBody(f);
    if i < |w.control| - 1 {
      StepPrefix(w, a, |w.control| - 1);
      assert Apply(w, a).control[i] == Apply(w, a).control[..|w.control| - 1][i] == w.control[..|w.control| - 1][i];
    } else {
      TopStays(w, a);
    }
  }

  lemma TopStays(w: World, a: Action)
    requires Enabled(w, a) && w.control != [] && Top(w).AsyncBody? && !a.Await? && !a.FinishAsync?
    ensures Top(w) in Apply(w, a).control
  {
    hide WellFormed;
    assert Apply(w, a).control == w.control
        || (|Apply(w, a).control| > |w.control| && Apply(w, a).control[|w.control| - 1] == Top(w));
  }

  /** The body that runs is the top of the call stack. */
  lemma RunningIsTop(w: World, f: FrameId)
    requires Inv(w) && Runs(w, f)
    ensures w.callStack != [] && w.callStack[|w.callStack| - 1] == f && f !in w.suspendedFrames
  {
    LeaveBody(w);
    assert OncePlaced(w, f);
    CountIn(w.callStack, f);
    CountIn(w.suspendedFrames, f);
  }

  /** A suspended frame goes on waiting for the same promise. */
  lemma AwaitedStays(w: World, a: Action, f: FrameId)
    requires Inv(w) && Enabled(w, a) && f in w.suspendedFrames && f < |w.frames| && w.frames[f].awaited.Some?
    ensures f < |Apply(w, a).frames| && Apply(w, a).frames[f].awaited.Some?
    ensures Apply(w, a).frames[f].awaited.value.p == w.frames[f].awaited.value.p
  {
    if a.Await? {
      AwaitFacts(w, a.v);
      RunningIsTop(w, Top(w).f);
    } else if Wakes(w, a) {
      WakeFacts(w);
    } else {
      StepKeepsAwaits(w, a);
    }
    hide Inv, Enabled, Apply;
  }

  /** The promise of a call is settled by the end of its own frame and by nothing else. */
  lemma OnlyItsEnd(w: World, a: Action, f: FrameId, p: PromiseId)
    requires Inv(w) && Enabled(w, a) && PromiseOf(w, f, p)
    requires ChangeOf(w, a).Settling? && ChangeOf(w, a).p == p
    ensures a.FinishAsync? && Runs(w, f)
  {
    TopsExist(w);
    match a
    case CallbackReturns(_) => CallbackChanges(w, a);
    case CallbackThrows(_) => CallbackChanges(w, a);
    case StepDelivery =>
      if Top(w).rest != [] && !Top(w).rest[0].reaction.WakeFrame? { DeliveryFindsPending(w); }
      DeliveryIsDerived(w);
    case _ => hide Inv, WellFormed;
  }

  lemma DeliveryIsDerived(w: World)
    requires Inv(w) && Enabled(w, StepDelivery) && ChangeOf(w, StepDelivery).Settling?
    ensures ChangeOf(w, StepDelivery).p < |w.promises| && w.promises[ChangeOf(w, StepDelivery).p].origin == Derived
  {
    var c := Top(w).rest[0];
    assert CallbackExists(c, |w.promises|, |w.frames|);
    DeliveryFindsPending(w);
    hide Inv, WellFormed;
  }

  lemma OutcomeStays(w: World, w': World, ch: Change, v: Value, s: Stamp)
    requires Changes(w, w', ch) && Outcome(w, v, s)
    ensures Outcome(w', v, s)
  {
    if v.PromiseRef? {
      assert (ch.Settling? && ch.p == v.p) || SameOutcome(w.promises[v.p], w'.promises[v.p]);
    }
  }

  lemma StandsStays(w: World, w': World, ch: Change, p: PromiseId, v: Value)
    requires Changes(w, w', ch) && StandsFor(w, p, v)
    ensures StandsFor(w', p, v)
  {
    assert (ch.Settling? && ch.p == p) || SameOutcome(w.promises[p], w'.promises[p]);
  }

  lemma OutcomesStay(w: World, w': World, ch: Change, trace: Trace)
    requires Changes(w, w', ch) && forall i | 0 <= i < |trace| :: Outcome(w, trace[i].0, trace[i].1)
    ensures forall i | 0 <= i < |trace| :: Outcome(w', trace[i].0, trace[i].1)
  {
    forall i | 0 <= i < |trace| ensures Outcome(w', trace[i].0, trace[i].1) {
      OutcomeStays(w, w', ch, trace[i].0, trace[i].1);
    }
  }

  // ---------- one step ----------

  /** The step is the frame's own await. */
  lemma OwnAwait<X>(w: World, v: Value, f: FrameId, p: PromiseId, code: Code<X>, x0: X, stage: Stage<X>, trace: Trace)
    requires Inv(w) && Enabled(w, Await(v)) && Runs(w, f) && stage.Ready?
    requires Follows(w, f, p, code, x0, stage, trace) && Obeys(w, Await(v), f, code, stage)
    ensures Follows(Apply(w, Await(v)), f, p, code, x0, Parked(stage.x), trace)
  {
    var w', ch := Apply(w, Await(v)), ChangeOf(w, Await(v));
    StepChanges(w, Await(v));
    StepKeepsPromiseOf(w, Await(v), f, p);
    RunningIsTop(w, f);
    AwaitKeepsPromises(w, v);
    AwaitFacts(w, v);
    OutcomesStay(w, w', ch, trace);
    assert SameOutcome(w.promises[p], w'.promises[p]);
    assert v.PromiseRef? ==> v.p < |w.promises| <= |w'.promises|;
    hide Inv, Enabled, Apply, Changes, ChangeOf, Outcome, LedTo, PromiseOf;
  }

  /** The step is the frame's own end. */
  lemma OwnEnd<X>(w: World, a: Action, f: FrameId, p: PromiseId, code: Code<X>, x0: X, stage: Stage<X>, trace: Trace)
    requires Inv(w) && Enabled(w, a) && a.FinishAsync? && Runs(w, f) && stage.Ready?
    requires Follows(w, f, p, code, x0, stage, trace) && Obeys(w, a, f, code, stage)
    ensures Follows(Apply(w, a), f, p, code, x0, Over(stage.x), trace)
  {
    var w', ch := Apply(w, a), ChangeOf(w, a);
    StepChanges(w, a);
    StepKeepsPromiseOf(w, a, f, p);
    OutcomesStay(w, w', ch, trace);
    assert w.frames[f].pendingPromise == Some(p);
    assert ch == Settling(p, if a.fulfil then Fulfilled else Rejected, a.v);
    hide Inv, Enabled, Apply, ChangeOf, Outcome, LedTo, PromiseOf;
  }

  lemma AnswerIsOutcome(w: World, f: FrameId, v: Value)
    requires Answered(w, f) && StandsFor(w, w.frames[f].awaited.value.p, v)
    ensures Outcome(w, v, StampOf(w, f))
  {
  }

  /** The step resumes the frame: it is told the outcome of what it awaited. */
  lemma OwnResumption<X>(w: World, f: FrameId, p: PromiseId, code: Code<X>, x0: X, stage: Stage<X>, trace: Trace)
    requires Inv(w) && StampsTrue(w) && Enabled(w, RunMicrotask) && Resumes(w, RunMicrotask, f) && stage.Parked?
    requires Follows(w, f, p, code, x0, stage, trace)
    ensures Follows(Apply(w, RunMicrotask), f, p, code, x0, NextStage(w, RunMicrotask, f, code, stage),
                    NextTrace(w, RunMicrotask, f, code, stage, trace))
  {
    var w', ch, a := Apply(w, RunMicrotask), ChangeOf(w, RunMicrotask), RunMicrotask;
    var x, s := stage.x, StampOf(w, f);
    assert w.microtasks[0] in w.microtasks && Answered(w, f);
    AnswerIsOutcome(w, f, code.run(x).v);
    StepChanges(w, a);
    StepKeepsPromiseOf(w, a, f, p);
    OutcomesStay(w, w', ch, trace);
    OutcomeStays(w, w', ch, code.run(x).v, s);
    assert SameOutcome(w.promises[p], w'.promises[p]);
    var more := trace + [(code.run(x).v, s)];
    assert more[..|more| - 1] == trace;
    assert w'.control == w.control + [AsyncBody(f)];
    hide Inv, Enabled, Apply, Changes, ChangeOf, Outcome, PromiseOf, StampOf, StampsTrue, Answered, StandsFor;
  }

  /** Any other step leaves the frame where it is. */
  lemma OtherStep<X>(w: World, a: Action, f: FrameId, p: PromiseId, code: Code<X>, x0: X, stage: Stage<X>, trace: Trace)
    requires Inv(w) && Enabled(w, a) && Follows(w, f, p, code, x0, stage, trace)
    requires !(stage.Ready? && Runs(w, f) && (a.Await? || a.FinishAsync?)) && !(stage.Parked? && Resumes(w, a, f))
    ensures Follows(Apply(w, a), f, p, code, x0, stage, trace)
  {
    var w', ch := Apply(w, a), ChangeOf(w, a);
    StepChanges(w, a);
    StepKeepsPromiseOf(w, a, f, p);
    StepKeepsPromises(w, a);
    OutcomesStay(w, w', ch, trace);
    if stage.Parked? {
      AwaitedStays(w, a, f);
      StandsStays(w, w', ch, w.frames[f].awaited.value.p, code.run(stage.x).v);
    } else if stage.Ready? {
      BodyStays(w, a, f);
    }
    if ch.Settling? && ch.p == p {
      OnlyItsEnd(w, a, f, p);
      RunningIsTop(w, f);
    } else {
      assert SameOutcome(w.promises[p], w'.promises[p]);
    }
    hide Inv, Enabled, Apply, Changes, ChangeOf, Outcome, LedTo, PromiseOf, StandsFor, Runs, Resumes;
  }

  lemma StepFollows<X>(w: World, a: Action, f: FrameId, p: PromiseId, code: Code<X>, x0: X, stage: Stage<X>,
                       trace: Trace)
    requires Inv(w) && StampsTrue(w) && Enabled(w, a) && Follows(w, f, p, code, x0, stage, trace)
    requires Obeys(w, a, f, code, stage)
    ensures Follows(Apply(w, a), f, p, code, x0, NextStage(w, a, f, code, stage),
                    NextTrace(w, a, f, code, stage, trace))
  {
    if stage.Ready? && Runs(w, f) && a.Await? {
      OwnAwait(w, a.v, f, p, code, x0, stage, trace);
    } else if stage.Ready? && Runs(w, f) && a.FinishAsync? {
      OwnEnd(w, a, f, p, code, x0, stage, trace);
    } else if stage.Parked? && Resumes(w, a, f) {
      OwnResumption(w, f, p, code, x0, stage, trace);
    } else {
      OtherStep(w, a, f, p, code, x0, stage, trace);
    }
    hide Inv, StampsTrue, Apply, Follows;
  }

  // ---------- whole runs ----------

  /** A run in which frame f runs the code. */
  ghost predicate RunsCode<X>(w: World, actions: seq<Action>, w': World, f: FrameId, code: Code<X>, stage: Stage<X>)
    decreases |actions|
  {
    if actions == [] then w' == w
    else
      && Enabled(w, actions[0]) && Obeys(w, actions[0], f, code, stage)
      && RunsCode(Apply(w, actions[0]), actions[1..], w', f, code, NextStage(w, actions[0], f, code, stage))
  }

  ghost predicate Somewhere<X(!new)>(w: World, f: FrameId, p: PromiseId, code: Code<X>, x0: X) {
    exists stage, trace :: Follows(w, f, p, code, x0, stage, trace)
  }

  lemma {:induction false} RunFollows<X(!new)>(w: World, actions: seq<Action>, w': World, f: FrameId, p: PromiseId,
                                         code: Code<X>, x0: X, stage: Stage<X>, trace: Trace)
    requires Inv(w) && Truthful(w) && StampsTrue(w) && Follows(w, f, p, code, x0, stage, trace)
    requires RunsCode(w, actions, w', f, code, stage)
    ensures Somewhere(w', f, p, code, x0)
    decreases |actions|
  {
    hide Inv, Truthful, StampsTrue, Follows, Obeys, NextStage, NextTrace, Apply;
    if actions == [] {
      assert Follows(w', f, p, code, x0, stage, trace);
    } else {
      var a := actions[0];
      StepInv(w, a);
      StepTruth(w, a);
      StepStamps(w, a);
      StepFollows(w, a, f, p, code, x0, stage, trace);
      RunFollows(Apply(w, a), actions[1..], w', f, p, code, x0, NextStage(w, a, f, code, stage),
                 NextTrace(w, a, f, code, stage, trace));
    }
  }

  lemma CallFollows<X>(w: World, code: Code<X>, x0: X)
    requires Inv(w) && Enabled(w, CallAsync)
    ensures Follows(Apply(w, CallAsync), |w.frames|, |w.promises|, code, x0, Ready(x0), [])
  {
    forall g | 0 <= g < |w.frames| ensures w.frames[g].pendingPromise != Some(|w.promises|) {
      assert FrameOk(w, g);
    }
    hide Inv;
    var w' := Apply(w, CallAsync);
    assert w'.control[|w.control|] == AsyncBody(|w.frames|);
  }

  /** An async call made in any reachable state, and any run from there in which its frame runs its code: as long as the
      code has not come to its end the call's promise is pending; when it is settled, the code has been told, await by
      await, the outcome of what it awaited, and the promise is settled with the end the code came to. */
  lemma CallSettlesAsItsCode<X(!new)>(w: World, actions: seq<Action>, w': World, code: Code<X>, x0: X)
    requires Reachable(w) && Enabled(w, CallAsync)
    requires RunsCode(Apply(w, CallAsync), actions, w', |w.frames|, code, Ready(x0))
    ensures |w.promises| < |w'.promises|
    ensures var x := w'.promises[|w.promises|];
            x.status != Pending ==>
              exists trace: Trace ::
                && (forall i | 0 <= i < |trace| :: Outcome(w', trace[i].0, trace[i].1))
                && LedTo(code, x0, trace).Some?
                && code.run(LedTo(code, x0, trace).value) == Ends(x.status == Fulfilled, x.result)
  {
    var w1, f, p := Apply(w, CallAsync), |w.frames|, |w.promises|;
    ReachableTruth(w);
    ReachableStamps(w);
    StepInv(w, CallAsync);
    StepTruth(w, CallAsync);
    StepStamps(w, CallAsync);
    CallFollows(w, code, x0);
    RunFollows(w1, actions, w', f, p, code, x0, Ready(x0), []);
    hide Inv, Truthful, StampsTrue, Apply, RunsCode;
    var stage, trace :| Follows(w', f, p, code, x0, stage, trace);
  }

  lemma ReachableStamps(w: World)
    requires Reachable(w)
    ensures StampsTrue(w)
  {
    var actions :| Run(INIT, actions, w);
    assert StampsTrue(INIT);
    assert Truthful(INIT);
    RunStamps(INIT, actions, w);
  }
}
