/** What a resumed frame finds: the outcome of the very promise it suspended for. */
module AsyncStamps {
  import opened Wrappers
  import opened Decimal
  import opened AsyncMachine
  import opened AsyncWellFormed
  import opened AsyncOwnership
  import opened AsyncSafety
  import opened AsyncOrder
  import opened AsyncValues

  /** Frame f suspended for p. */
  ghost predicate WaitsFor(w: World, f: FrameId, p: PromiseId) {
    f < |w.frames| && w.frames[f].awaited.Some? && w.frames[f].awaited.value.p == p
  }

  /** Frame f is stamped with the way the promise it suspended for has ended. */
  ghost predicate Answered(w: World, f: FrameId) {
    && f < |w.frames| && w.frames[f].awaited.Some?
    && var a := w.frames[f].awaited.value;
       && a.p < |w.promises| && w.promises[a.p].status != Pending
       && a.stamp == Some(Stamped(w.promises[a.p].status == Rejected, w.promises[a.p].result))
  }

  ghost predicate StampsTrue(w: World) {
    && (forall p, s, c | Listed(w, p, s, c) && c.reaction.WakeFrame? :: WaitsFor(w, c.reaction.frame, c.source))
    && (forall c, v | Told(w, c, v) && c.reaction.WakeFrame? :: WaitsFor(w, c.reaction.frame, c.source))
    && (forall f | Resume(f) in w.microtasks :: Answered(w, f))
  }

  /** No frame waits for anything else than before, and no resumption is queued. */
  ghost predicate AwaitsKept(w: World, w': World) {
    && |w.frames| <= |w'.frames|
    && (forall f | 0 <= f < |w.frames| :: w'.frames[f].awaited == w.frames[f].awaited)
    && (forall f | Resume(f) in w'.microtasks :: Resume(f) in w.microtasks)
  }

  lemma AnsweredStays(w: World, w': World, ch: Change, f: FrameId)
    requires Answered(w, f) && Changes(w, w', ch) && f < |w'.frames| && w'.frames[f].awaited == w.frames[f].awaited
    ensures Answered(w', f)
  {
    var p := w.frames[f].awaited.value.p;
    assert (ch.Settling? && ch.p == p) || SameOutcome(w.promises[p], w'.promises[p]);
  }

  lemma StampsKept(w: World, w': World, ch: Change)
    requires StampsTrue(w) && Changes(w, w', ch) && AwaitsKept(w, w')
    requires ch.Attaching? ==> !ch.on.WakeFrame? && !ch.onr.WakeFrame?
    ensures StampsTrue(w')
  {
    forall f | Resume(f) in w'.microtasks ensures Answered(w', f) {
      AnsweredStays(w, w', ch, f);
    }
    hide Listed, Told;
    forall p, s, c | Listed(w', p, s, c) && c.reaction.WakeFrame? ensures WaitsFor(w', c.reaction.frame, c.source) {
      assert Listed(w, p, s, c) || NewlyListed(ch, p, s, c);
    }
    forall c, v | Told(w', c, v) && c.reaction.WakeFrame? ensures WaitsFor(w', c.reaction.frame, c.source) {
      assert Told(w, c, v) || NewlyTold(w, ch, c, v);
    }
  }

  /** Steps that neither suspend a frame nor wake one. */
  ghost predicate Wakes(w: World, a: Action)
    requires Enabled(w, a)
  {
    a.StepDelivery? && Top(w).rest != [] && Top(w).rest[0].reaction.WakeFrame?
  }

  lemma DeliveryKeepsAwaits(w: World)
    requires Enabled(w, StepDelivery) && !Wakes(w, StepDelivery)
    ensures AwaitsKept(w, Apply(w, StepDelivery))
  {
    if Top(w).rest != [] {
      assert CallbackExists(Top(w).rest[0], |w.promises|, |w.frames|);
      hide WellFormed;
    }
  }

  lemma FinishKeepsAwaits(w: World, c: Callback, v: Value, res: Option<Value>, error: string)
    requires CallbackExists(c, |w.promises|, |w.frames|) && (res.Some? ==> ValueExists(res.value, w))
    requires RunsUserFunction(c.reaction)
    ensures AwaitsKept(w, FinishCallback(w, c, v, res, error))
  {
  }

  lemma MicrotaskKeepsAwaits(w: World)
    requires Enabled(w, RunMicrotask)
    ensures AwaitsKept(w, Apply(w, RunMicrotask))
  {
    assert JobExists(w.microtasks[0], |w.promises|, |w.frames|);
    hide WellFormed;
  }

  lemma PlainKeepsAwaits(w: World, a: Action)
    requires Enabled(w, a) && !a.Await? && !a.RunMicrotask? && !a.StepDelivery?
    requires !a.CallbackReturns? && !a.CallbackThrows?
    ensures AwaitsKept(w, Apply(w, a))
  {
    TopsExist(w);
    hide WellFormed;
  }

  lemma StepKeepsAwaits(w: World, a: Action)
    requires Enabled(w, a) && !a.Await? && !Wakes(w, a)
    ensures AwaitsKept(w, Apply(w, a))
  {
    TopsExist(w);
    match a
    case StepDelivery => DeliveryKeepsAwaits(w);
    case CallbackReturns(v) => FinishKeepsAwaits(Pop(w), Top(w).callback, Top(w).v, Some(v), "");
    case CallbackThrows(error) => FinishKeepsAwaits(Pop(w), Top(w).callback, Top(w).v, None, error);
    case RunMicrotask => MicrotaskKeepsAwaits(w);
    case _ => PlainKeepsAwaits(w, a);
  }

  /** What waking a frame does to the frames and the queue. */
  lemma WakeFacts(w: World)
    requires Inv(w) && Enabled(w, StepDelivery) && Wakes(w, StepDelivery)
    ensures var c, w' := Top(w).rest[0], Apply(w, StepDelivery);
            var f := c.reaction.frame;
            && f < |w.frames| == |w'.frames| && w'.microtasks == w.microtasks + [Resume(f)]
            && (forall g | 0 <= g < |w.frames| && g != f :: w'.frames[g] == w.frames[g])
            && (w.frames[f].awaited.Some? ==>
                  w'.frames[f].awaited
                  == Some(w.frames[f].awaited.value.(stamp := Some(Stamped(c.reaction.threw, Top(w).v)))))
  {
    assert CallbackExists(Top(w).rest[0], |w.promises|, |w.frames|);
    hide Inv, WellFormed;
  }

  /** The reaction of await stamps the frame it wakes with what it is told. */
  lemma WakeStamps(w: World)
    requires Inv(w) && Truthful(w) && StampsTrue(w) && Enabled(w, StepDelivery) && Wakes(w, StepDelivery)
    ensures StampsTrue(Apply(w, StepDelivery))
  {
    var c, v, w' := Top(w).rest[0], Top(w).v, Apply(w, StepDelivery);
    var f := c.reaction.frame;
    StepChanges(w, StepDelivery);
    WakeFacts(w);
    assert Top(w) in w.control && InActivation(Top(w), c, v);
    assert Told(w, c, v) && Heard(w, c, v) && WaitsFor(w, f, c.source);
    assert SameOutcome(w.promises[c.source], w'.promises[c.source]);
    hide Inv, Listed, Told, Apply, Enabled;
    forall g | Resume(g) in w'.microtasks ensures Answered(w', g) {
      if g != f {
        AnsweredStays(w, w', Nothing, g);
      }
    }
    forall p, s, d | Listed(w', p, s, d) && d.reaction.WakeFrame? ensures WaitsFor(w', d.reaction.frame, d.source) {
      assert Listed(w, p, s, d);
    }
    forall d, u | Told(w', d, u) && d.reaction.WakeFrame? ensures WaitsFor(w', d.reaction.frame, d.source) {
      assert Told(w, d, u);
    }
  }

  /** What await does to the frames and the queue: a resumption is queued at once unless the promise is pending. */
  lemma AwaitFacts(w: World, v: Value)
    requires Enabled(w, Await(v))
    ensures var f, w' := w.callStack[|w.callStack| - 1], Apply(w, Await(v));
            && f < |w.frames| == |w'.frames|
            && (forall g | 0 <= g < |w.frames| && g != f :: w'.frames[g] == w.frames[g])
            && w'.frames[f].awaited == Some(AwaitedBy(w, v))
            && (forall g | Resume(g) in w'.microtasks ::
                  Resume(g) in w.microtasks || (g == f && AwaitedBy(w, v).stamp.Some?))
            && (!v.PromiseRef? ==> |w'.promises| == |w.promises| + 1 && w'.promises[|w.promises|].status == Fulfilled
                                   && w'.promises[|w.promises|].result == v)
  {
    TopsExist(w);
    hide WellFormed;
  }

  /** Nothing is on its way to wake a running frame. */
  lemma RunningIsNotAwaited(w: World, f: FrameId)
    requires Inv(w) && f in w.callStack
    ensures Resume(f) !in w.microtasks
    ensures forall p, s, c | Listed(w, p, s, c) :: TargetOf(c.reaction) != OfFrame(f)
    ensures forall c, v | Told(w, c, v) :: TargetOf(c.reaction) != OfFrame(f)
  {
    assert OncePlaced(w, f);
    CountIn(w.callStack, f);
    assert Outstanding(w, OfFrame(f)) == Expected(w, OfFrame(f)) == 0;
    NothingOutstanding(w, OfFrame(f));
    if Resume(f) in w.microtasks {
      NoHitNoJob(w.microtasks, OfFrame(f), Resume(f));
    }
  }

  lemma AwaitStamps(w: World, v: Value)
    requires Inv(w) && StampsTrue(w) && Enabled(w, Await(v))
    ensures StampsTrue(Apply(w, Await(v)))
  {
    AwaitAnswers(w, v);
    AwaitWaits(w, v);
    hide Inv, Listed, Told, Apply, Enabled, Answered, WaitsFor;
  }

  lemma AwaitAnswers(w: World, v: Value)
    requires Inv(w) && StampsTrue(w) && Enabled(w, Await(v))
    ensures forall g | Resume(g) in Apply(w, Await(v)).microtasks :: Answered(Apply(w, Await(v)), g)
  {
    var f, w', ch := w.callStack[|w.callStack| - 1], Apply(w, Await(v)), ChangeOf(w, Await(v));
    StepChanges(w, Await(v));
    AwaitFacts(w, v);
    RunningIsNotAwaited(w, f);
    assert v.PromiseRef? ==> ch.Settling? || SameOutcome(w.promises[v.p], w'.promises[v.p]);
    hide Inv, Listed, Told, Apply, Enabled;
    forall g | Resume(g) in w'.microtasks ensures Answered(w', g) {
      if g != f {
        AnsweredStays(w, w', ch, g);
      }
    }
  }

  lemma AwaitWaits(w: World, v: Value)
    requires Inv(w) && StampsTrue(w) && Enabled(w, Await(v))
    ensures var w' := Apply(w, Await(v));
            && (forall p, s, c | Listed(w', p, s, c) && c.reaction.WakeFrame? ::
                  WaitsFor(w', c.reaction.frame, c.source))
            && (forall c, u | Told(w', c, u) && c.reaction.WakeFrame? :: WaitsFor(w', c.reaction.frame, c.source))
  {
    var f, w', ch := w.callStack[|w.callStack| - 1], Apply(w, Await(v)), ChangeOf(w, Await(v));
    StepChanges(w, Await(v));
    AwaitFacts(w, v);
    RunningIsNotAwaited(w, f);
    hide Inv, Listed, Told, Apply, Enabled;
    forall p, s, d | Listed(w', p, s, d) && d.reaction.WakeFrame? ensures WaitsFor(w', d.reaction.frame, d.source) {
      assert Listed(w, p, s, d) || NewlyListed(ch, p, s, d);
      assert Listed(w, p, s, d) ==> TargetOf(d.reaction) != OfFrame(f);
    }
    forall d, u | Told(w', d, u) && d.reaction.WakeFrame? ensures WaitsFor(w', d.reaction.frame, d.source) {
      assert Told(w, d, u) || NewlyTold(w, ch, d, u);
      assert Told(w, d, u) ==> TargetOf(d.reaction) != OfFrame(f);
    }
  }

  lemma StepStamps(w: World, a: Action)
    requires Inv(w) && Truthful(w) && StampsTrue(w) && Enabled(w, a)
    ensures StampsTrue(Apply(w, a))
  {
    if a.Await? {
      AwaitStamps(w, a.v);
    } else if Wakes(w, a) {
      WakeStamps(w);
    } else {
      StepChanges(w, a);
      StepKeepsAwaits(w, a);
      hide Inv, Truthful, Changes, AwaitsKept, StampsTrue;
      StampsKept(w, Apply(w, a), ChangeOf(w, a));
    }
  }

  lemma {:induction false} RunStamps(w: World, actions: seq<Action>, w': World)
    requires Inv(w) && Truthful(w) && StampsTrue(w)
    ensures Run(w, actions, w') ==> StampsTrue(w')
    decreases |actions|
  {
    hide Inv, Truthful, StampsTrue;
    if actions != [] && Run(w, actions, w') {
      StepInv(w, actions[0]);
      StepTruth(w, actions[0]);
      StepStamps(w, actions[0]);
      RunStamps(Apply(w, actions[0]), actions[1..], w');
    }
  }

  /** In every reachable state a queued resumption finds its frame suspended, once and off the call stack, and stamped
      with the final state and result of the very promise it suspended for. */
  lemma ResumeFindsOutcome(w: World, f: FrameId)
    requires Reachable(w) && Resume(f) in w.microtasks
    ensures Answered(w, f)
    ensures f in w.suspendedFrames && Count(w.suspendedFrames, f) == 1 && f !in w.callStack
  {
    ReachableTruth(w);
    var actions :| Run(INIT, actions, w);
    assert StampsTrue(INIT);
    RunStamps(INIT, actions, w);
    ResumeFindsSuspended(w, f);
  }

  /** The digits of a number: no leading zero, and they read as the number. */
  predicate Writes(d: string, n: nat) {
    d != [] && AllDigits(d) && Num(d) == n && (d[0] == '0' <==> n == 0)
  }

  /** The error a resumed frame raises is made from the reason: a string as it stands, null for no value, and a number
      in decimal; a fulfilled promise's result it gets unchanged. */
  lemma ResumeIsToldReason(w: World, f: FrameId)
    requires Reachable(w) && Resume(f) in w.microtasks
    ensures f < |w.frames| && w.frames[f].awaited.Some? && w.frames[f].awaited.value.p < |w.promises|
    ensures var a := w.frames[f].awaited.value;
            var p := w.promises[a.p];
            && p.status != Pending && a.stamp.Some? && a.stamp.value.threw == (p.status == Rejected)
            && (p.status == Fulfilled ==> a.stamp.value.v == p.result)
            && (p.status == Rejected ==>
                  && a.stamp.value.v.Text?
                  && var s := a.stamp.value.v.s;
                     && (p.result.Text? ==> s == p.result.s)
                     && (p.result.Undefined? ==> s == "null")
                     && (p.result.Number? && p.result.n >= 0 ==> Writes(s, p.result.n))
                     && (p.result.Number? && p.result.n < 0 ==>
                           s != [] && s[0] == '-' && Writes(s[1..], -p.result.n)))
  {
    ResumeFindsOutcome(w, f);
    var r := w.promises[w.frames[f].awaited.value.p].result;
    if r.Number? {
      PlainReadsBack(if r.n < 0 then -r.n else r.n);
    }
  }
}
