/** Two concrete runs that show what the report of unhandled rejections misses. */
module AsyncWitness {
  import opened Wrappers
  import opened AsyncMachine
  import opened AsyncOwnership
  import opened AsyncReports
  import opened AsyncValues

  lemma {:induction false} RunOneMore(w: World, actions: seq<Action>, w1: World, a: Action)
    requires Run(w, actions, w1) && Enabled(w1, a)
    ensures Run(w, actions + [a], Apply(w1, a))
    decreases |actions|
  {
    if actions == [] {
      assert Run(Apply(w1, a), [], Apply(w1, a)) && [a][1..] == [];
    } else {
      RunOneMore(Apply(w, actions[0]), actions[1..], w1, a);
      assert (actions + [a])[1..] == actions[1..] + [a];
    }
  }

  ghost predicate Goes(w: World, a: Action, w': World) {
    Enabled(w, a) && Apply(w, a) == w'
  }

  lemma ReachableStep(w: World, a: Action, w': World)
    requires Reachable(w) && Goes(w, a, w')
    ensures Reachable(w')
  {
    var actions :| Run(INIT, actions, w);
    RunOneMore(INIT, actions, w, a);
  }

  const REASON := Text("boom")

  function Plain(status: Status, result: Value, parent: Option<PromiseId>, origin: Origin): Promise {
    Promise(status, result, [], [], false, false, false, parent, origin, 0, [])
  }

  // ---------- a rejection that a catch callback has in hand is reported all the same ----------

  const P0 := Plain(Fulfilled, Undefined, None, Constructed).(handled := true, attached := 1)
  const THEN := Callback(0, 0, RunThen(2, 0, None, false))
  const CATCH := Callback(2, 0, RunCatch(3, 1))
  const PASS := Callback(2, 0, ResolveNextLater(3))
  const N2 := Plain(Pending, Undefined, Some(0), Derived).(thenCallbacks := [PASS], catchCallbacks := [CATCH],
                                                            handled := true, attached := 1)
  const N3 := Plain(Pending, Undefined, Some(2), Derived)
  const Q1 := Plain(Pending, Undefined, None, Constructed)
  const LINKED := Q1.(thenCallbacks := [Callback(1, 0, ResolveNextLater(2))],
                      catchCallbacks := [Callback(1, 0, RejectNextLater(2))], parent := Some(2), attached := 1)

  /** p0 is fulfilled, q1 pending, n2 = p0.then(() => q1), n3 = n2.catch(g). */
  const SETUP := World([P0, Q1, N2, N3], [], [Deliver([], Undefined), Deliver([THEN], Undefined)], [], [], [], [])

  const DONE := Plain(Fulfilled, Undefined, None, Constructed)
  const NOTHING := Deliver([], Undefined)
  const W1 := INIT.(control := [Macrotask])
  const W2 := W1.(promises := [Q1])
  const W3 := W1.(promises := [DONE], microtasks := [NOTHING])
  const W4 := W3.(promises := [DONE, Q1])
  const BARE := Plain(Pending, Undefined, Some(0), Derived)
  const W5 := W3.(promises := [P0.(handled := false), Q1, BARE], microtasks := [NOTHING, Deliver([THEN], Undefined)])
  const W6 := SETUP.(control := [Macrotask])

  lemma FirstSteps()
    ensures Goes(INIT, StartMacrotask, W1) && Goes(W1, NewPromise, W2)
    ensures Goes(W2, SettleConstructed(0, true, Undefined), W3) && Goes(W3, NewPromise, W4)
  {
    assert Goes(INIT, StartMacrotask, W1);
    assert Goes(W1, NewPromise, W2);
    assert Goes(W2, SettleConstructed(0, true, Undefined), W3);
    assert Goes(W3, NewPromise, W4);
  }

  lemma AttachesThen()
    ensures Goes(W4, AttachThen(0, 0, None), W5)
  {
  }

  lemma AttachesCatch()
    ensures Goes(W5, AttachCatch(2, 1), W6)
  {
    assert WellFormed(W5);
    hide WellFormed;
    var ps := W5.promises + [N3];
    var marked := ps[2 := BARE.(handled := true)];
    assert MarkHandled(ps, 2) == MarkHandled(marked, 0);
    assert MarkHandled(marked, 0) == marked[0 := P0];
    var w1 := AddPromise(W5, FreshPromise(Some(2), Derived));
    assert w1.promises == ps;
    var w2 := W5.(promises := [P0, Q1, BARE.(handled := true), N3]);
    assert Mark(w1, 2) == w2;
    assert [] + [PASS] == [PASS] && [] + [CATCH] == [CATCH];
    assert React(w2, 2, ResolveNextLater(3), RunCatch(3, 1)).promises == [P0, Q1, N2, N3];
    assert Apply(W5, AttachCatch(2, 1)) == Catch(W5, 2, 1) == React(w2, 2, ResolveNextLater(3), RunCatch(3, 1));
  }

  lemma Starts()
    ensures Reachable(INIT)
  {
    assert Run(INIT, [], INIT);
  }

  lemma LeavesSetup()
    ensures Goes(W6, EndMacrotask, SETUP)
  {
  }

  lemma SetupIsReachable()
    ensures Reachable(SETUP)
  {
    hide Goes, Reachable;
    Starts();
    FirstSteps();
    AttachesThen();
    AttachesCatch();
    LeavesSetup();
    ReachableStep(INIT, StartMacrotask, W1);
    ReachableStep(W1, NewPromise, W2);
    ReachableStep(W2, SettleConstructed(0, true, Undefined), W3);
    ReachableStep(W3, NewPromise, W4);
    ReachableStep(W4, AttachThen(0, 0, None), W5);
    ReachableStep(W5, AttachCatch(2, 1), W6);
    ReachableStep(W6, EndMacrotask, SETUP);
  }

  // the callback of then returns q1, and q1 rejects

  const LINKING := SETUP.(microtasks := [Deliver([THEN], Undefined)])
  const RAN0 := P0.(ran := [0])
  const W8 := World([P0, Q1, N2, N3], [], [Deliver([THEN], Undefined)], [], [], [Delivering([], Undefined, None)], [])
  const W9 := World([P0, Q1, N2, N3], [], [], [], [], [Delivering([THEN], Undefined, None)], [])
  const W10 := World([RAN0, Q1, N2, N3], [], [], [], [],
                     [Delivering([], Undefined, None), InCallback(THEN, Undefined)], [])
  const W11 := World([RAN0, LINKED, N2, N3], [], [], [], [], [Delivering([], Undefined, None)], [])
  const W12 := World([RAN0, LINKED, N2, N3], [], [], [], [], [], [])

  lemma DeliversFirst()
    ensures Goes(SETUP, RunMicrotask, W8) && Goes(W8, StepDelivery, LINKING) && Goes(LINKING, RunMicrotask, W9)
  {
    assert Goes(SETUP, RunMicrotask, W8);
    assert Goes(W8, StepDelivery, LINKING);
    assert Goes(LINKING, RunMicrotask, W9);
  }

  lemma CallsThen()
    ensures Goes(W9, StepDelivery, W10)
  {
    assert [] + [0] == [0] && [THEN][1..] == [];
    assert TakeFirst(W9).promises == [RAN0, Q1, N2, N3];
    assert TakeFirst(W9).control == [Delivering([], Undefined, None)];
  }

  lemma ReturnsQ1()
    ensures Goes(W10, CallbackReturns(PromiseRef(1)), W11)
  {
    var c0, c1 := Callback(1, 0, ResolveNextLater(2)), Callback(1, 0, RejectNextLater(2));
    assert [] + [c0] == [c0] && [] + [c1] == [c1];
    var w := Pop(W10);
    assert w == W10.(control := [Delivering([], Undefined, None)]);
    assert Chain(w, 2, PromiseRef(1)).promises == [RAN0, LINKED, N2, N3];
  }

  const W13 := W12.(control := [Macrotask])
  const REJECTED := LINKED.(status := Rejected, result := REASON)
  const W14 := World([RAN0, REJECTED, N2, N3], [],
                     [DeliverRejection(1, [Callback(1, 0, RejectNextLater(2))], REASON)], [], [], [Macrotask], [])
  const W15 := W14.(control := [])
  const W16 := World([RAN0, REJECTED, N2, N3], [], [], [], [],
                     [Delivering([Callback(1, 0, RejectNextLater(2))], REASON, Some(1))], [])
  const RAN1 := REJECTED.(ran := [0])
  const FAILED := N2.(status := Rejected, result := REASON)
  const W17 := World([RAN0, RAN1, FAILED, N3], [], [Deliver([CATCH], REASON)], [], [],
                     [Delivering([], REASON, Some(1))], [])
  const CHECKED := RAN1.(checkScheduled := true)
  const W18 := World([RAN0, CHECKED, FAILED, N3], [], [Deliver([CATCH], REASON), CheckUnhandled(1)], [], [], [], [])
  const W19 := World([RAN0, CHECKED, FAILED, N3], [], [CheckUnhandled(1)], [], [],
                     [Delivering([CATCH], REASON, None)], [])
  /** g is running, with q1's reason in hand. */
  const CAUGHT := World([RAN0, CHECKED, FAILED.(ran := [0]), N3], [], [CheckUnhandled(1)], [], [],
                        [Delivering([], REASON, None), InCallback(CATCH, REASON)], [])

  lemma Idles()
    ensures Goes(W11, StepDelivery, W12) && Goes(W12, StartMacrotask, W13)
  {
  }

  lemma RejectsQ1()
    ensures Goes(W13, SettleConstructed(1, false, REASON), W14)
  {
    assert W13.promises[1] == LINKED;
    assert RejectPromise(W13, 1, REASON).promises == [RAN0, REJECTED, N2, N3];
  }

  lemma DeliversRejection()
    ensures Goes(W14, EndMacrotask, W15) && Goes(W15, RunMicrotask, W16)
  {
    assert Goes(W14, EndMacrotask, W15);
    assert Goes(W15, RunMicrotask, W16);
  }

  lemma RejectsN2()
    ensures Goes(W16, StepDelivery, W17)
  {
    var c := Callback(1, 0, RejectNextLater(2));
    assert [] + [0] == [0] && [c][1..] == [];
    var w := TakeFirst(W16);
    assert w == World([RAN0, RAN1, N2, N3], [], [], [], [], [Delivering([], REASON, Some(1))], []);
    assert RejectNext(w, 2, REASON).promises == [RAN0, RAN1, FAILED, N3];
  }

  lemma SchedulesCheck()
    ensures Goes(W17, StepDelivery, W18)
  {
    assert DeliveryTurn(W17).promises == [RAN0, CHECKED, FAILED, N3];
  }

  lemma StartsSecond()
    ensures Goes(W18, RunMicrotask, W19)
  {
    assert WellFormed(W18);
    hide WellFormed, MarkHandled;
    assert W18.microtasks[0] == Deliver([CATCH], REASON) && W18.microtasks[1..] == [CheckUnhandled(1)];
  }

  lemma Catches()
    ensures Goes(W19, StepDelivery, CAUGHT)
  {
    assert [] + [0] == [0] && [CATCH][1..] == [];
    assert TakeFirst(W19) == CAUGHT.(control := [Delivering([], REASON, None)]);
  }

  lemma CaughtIsReachable()
    ensures Reachable(CAUGHT)
  {
    hide Goes, Reachable;
    SetupIsReachable();
    DeliversFirst();
    CallsThen();
    ReturnsQ1();
    Idles();
    RejectsQ1();
    DeliversRejection();
    RejectsN2();
    SchedulesCheck();
    StartsSecond();
    Catches();
    ReachableStep(SETUP, RunMicrotask, W8);
    ReachableStep(W8, StepDelivery, LINKING);
    ReachableStep(LINKING, RunMicrotask, W9);
    ReachableStep(W9, StepDelivery, W10);
    ReachableStep(W10, CallbackReturns(PromiseRef(1)), W11);
    ReachableStep(W11, StepDelivery, W12);
    ReachableStep(W12, StartMacrotask, W13);
    ReachableStep(W13, SettleConstructed(1, false, REASON), W14);
    ReachableStep(W14, EndMacrotask, W15);
    ReachableStep(W15, RunMicrotask, W16);
    ReachableStep(W16, StepDelivery, W17);
    ReachableStep(W17, StepDelivery, W18);
    ReachableStep(W18, RunMicrotask, W19);
    ReachableStep(W19, StepDelivery, CAUGHT);
  }

  const GONE := FAILED.(ran := [0])
  const N4 := N3.(status := Fulfilled)
  const W21 := World([RAN0, CHECKED, GONE, N4], [], [CheckUnhandled(1), NOTHING], [], [],
                     [Delivering([], REASON, None)], [])
  const W22 := W21.(control := [])
  const REPORTED := World([RAN0, CHECKED.(reported := true), GONE, N4], [], [NOTHING], [], [], [], [1])

  lemma ChecksAfterwards()
    ensures Goes(CAUGHT, CallbackReturns(Undefined), W21) && Goes(W21, StepDelivery, W22)
    ensures Goes(W22, RunMicrotask, REPORTED)
  {
    assert ResolveNext(Pop(CAUGHT), 3, Undefined).promises == W21.promises;
    assert Goes(CAUGHT, CallbackReturns(Undefined), W21);
    assert Goes(W21, StepDelivery, W22);
    assert Goes(W22, RunMicrotask, REPORTED);
  }

  /** q1, returned by a then callback, rejects; the catch attached to the derived promise runs with q1's own reason; and
      q1 is reported as unhandled all the same: the walk from the derived promise never comes to q1. */
  lemma CaughtYetReported()
    ensures Reachable(CAUGHT) && CAUGHT.reports == []
    ensures Top(CAUGHT) == InCallback(CATCH, REASON) && CATCH.reaction.RunCatch?
    ensures CAUGHT.promises[1].status == Rejected && CAUGHT.promises[1].result == REASON
    ensures Run(CAUGHT, [CallbackReturns(Undefined), StepDelivery, RunMicrotask], REPORTED)
    ensures REPORTED.reports == [1]
  {
    CaughtIsReachable();
    ChecksAfterwards();
    assert Run(REPORTED, [], REPORTED);
    hide Goes, Reachable, WellFormed;
    RunOne(W22, RunMicrotask, [], REPORTED, REPORTED);
    RunOne(W21, StepDelivery, [RunMicrotask], W22, REPORTED);
    RunOne(CAUGHT, CallbackReturns(Undefined), [StepDelivery, RunMicrotask], W21, REPORTED);
    assert [CallbackReturns(Undefined)] + [StepDelivery, RunMicrotask]
        == [CallbackReturns(Undefined), StepDelivery, RunMicrotask];
    assert [StepDelivery] + [RunMicrotask] == [StepDelivery, RunMicrotask] && [RunMicrotask] + [] == [RunMicrotask];
  }

  lemma RunOne(w: World, a: Action, rest: seq<Action>, w1: World, w': World)
    requires Goes(w, a, w1) && Run(w1, rest, w')
    ensures Run(w, [a] + rest, w')
  {
    assert ([a] + rest)[1..] == rest;
  }

  // ---------- a derived promise rejects and nobody is told ----------

  const THROWS := Callback(0, 0, RunThen(1, 0, None, false))
  const DERIVED := Plain(Pending, Undefined, Some(0), Derived)
  const LOST := DERIVED.(status := Rejected, result := REASON)
  const OWNER := DONE.(attached := 1)
  const V4 := World([OWNER, DERIVED], [], [NOTHING, Deliver([THROWS], Undefined)], [], [], [Macrotask], [])
  const V5 := V4.(control := [])
  const V6 := World([OWNER, DERIVED], [], [Deliver([THROWS], Undefined)], [], [], [Delivering([], Undefined, None)], [])
  const V7 := V6.(control := [])
  const V8 := World([OWNER, DERIVED], [], [], [], [], [Delivering([THROWS], Undefined, None)], [])
  const V9 := World([OWNER.(ran := [0]), DERIVED], [], [], [], [],
                    [Delivering([], Undefined, None), InCallback(THROWS, Undefined)], [])
  const V10 := World([OWNER.(ran := [0]), LOST], [], [Deliver([], REASON)], [], [],
                     [Delivering([], Undefined, None)], [])
  const V11 := V10.(control := [])
  const V12 := World([OWNER.(ran := [0]), LOST], [], [], [], [], [Delivering([], REASON, None)], [])
  const SILENT := V12.(control := [])

  lemma ThrowsSetup()
    ensures Goes(W3, AttachThen(0, 0, None), V4) && Goes(V4, EndMacrotask, V5) && Goes(V5, RunMicrotask, V6)
  {
    assert Goes(W3, AttachThen(0, 0, None), V4);
    assert Goes(V4, EndMacrotask, V5);
    assert Goes(V5, RunMicrotask, V6);
  }

  lemma ThrowsCall()
    ensures Goes(V6, StepDelivery, V7) && Goes(V7, RunMicrotask, V8) && Goes(V8, StepDelivery, V9)
  {
    assert Goes(V6, StepDelivery, V7);
    assert Goes(V7, RunMicrotask, V8);
    assert [] + [0] == [0] && [THROWS][1..] == [];
    assert TakeFirst(V8) == V9.(control := [Delivering([], Undefined, None)]);
    assert Goes(V8, StepDelivery, V9);
  }

  lemma ThrowsEnd()
    ensures Goes(V9, CallbackThrows("boom"), V10) && Goes(V10, StepDelivery, V11)
    ensures Goes(V11, RunMicrotask, V12) && Goes(V12, StepDelivery, SILENT)
  {
    assert RejectNext(Pop(V9), 1, REASON).promises == V10.promises;
    assert Goes(V9, CallbackThrows("boom"), V10);
    assert Goes(V10, StepDelivery, V11);
    assert Goes(V11, RunMicrotask, V12);
    assert Goes(V12, StepDelivery, SILENT);
  }

  /** A then callback throws: the system comes to rest with the derived promise rejected, unhandled and unreported. */
  lemma DerivedRejectionIsSilent()
    ensures Reachable(SILENT) && SILENT.microtasks == [] && SILENT.control == [] && SILENT.reports == []
    ensures SILENT.promises[1].status == Rejected && !SILENT.promises[1].handled && SILENT.promises[1].origin == Derived
  {
    hide Goes, Reachable;
    Starts();
    FirstSteps();
    ThrowsSetup();
    ThrowsCall();
    ThrowsEnd();
    ReachableStep(INIT, StartMacrotask, W1);
    ReachableStep(W1, NewPromise, W2);
    ReachableStep(W2, SettleConstructed(0, true, Undefined), W3);
    ReachableStep(W3, AttachThen(0, 0, None), V4);
    ReachableStep(V4, EndMacrotask, V5);
    ReachableStep(V5, RunMicrotask, V6);
    ReachableStep(V6, StepDelivery, V7);
    ReachableStep(V7, RunMicrotask, V8);
    ReachableStep(V8, StepDelivery, V9);
    ReachableStep(V9, CallbackThrows("boom"), V10);
    ReachableStep(V10, StepDelivery, V11);
    ReachableStep(V11, RunMicrotask, V12);
    ReachableStep(V12, StepDelivery, SILENT);
  }
}
