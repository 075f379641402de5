/** Calls leave the call stack as they found it. */
module AsyncCalls {
  import opened Wrappers
  import opened AsyncMachine
  import opened AsyncWellFormed
  import opened AsyncOwnership
  import opened AsyncFrames
  import opened AsyncSafety

  /** A run in which the native stack stays higher than depth until the last state. */
  ghost predicate RunAbove(w: World, actions: seq<Action>, w': World, depth: nat)
    decreases |actions|
  {
    if actions == [] then w' == w
    else |w.control| > depth && Enabled(w, actions[0]) && RunAbove(Apply(w, actions[0]), actions[1..], w', depth)
  }

  lemma StepPrefix(w: World, a: Action, depth: nat)
    requires Enabled(w, a) && |w.control| > depth
    ensures depth <= |Apply(w, a).control| && Apply(w, a).control[..depth] == w.control[..depth]
  {
    TopsExist(w);
    match a
    case StepDelivery =>
      if Top(w).rest != [] {
        assert CallbackExists(Top(w).rest[0], |w.promises|, |w.frames|);
      }
    case Await(v) => AwaitControl(w, w.callStack[|w.callStack| - 1], v);
    case CallbackReturns(v) =>
    case CallbackThrows(error) =>
    case _ =>
  }

  lemma {:induction false} RunPrefix(w: World, actions: seq<Action>, w': World, depth: nat)
    requires Inv(w) && depth <= |w.control|
    ensures RunAbove(w, actions, w', depth) ==>
              Inv(w') && depth <= |w'.control| && w'.control[..depth] == w.control[..depth]
    decreases |actions|
  {
    if actions != [] && RunAbove(w, actions, w', depth) {
      StepPrefix(w, actions[0], depth);
      StepInv(w, actions[0]);
      RunPrefix(Apply(w, actions[0]), actions[1..], w', depth);
    }
  }

  /** Whatever a call does, nested calls, suspensions and settlements included: when its activation is gone,
      returned, thrown or suspended, the call stack is the caller's again. */
  lemma CallRestoresStack(w: World, a: Action, actions: seq<Action>, w': World)
    requires Reachable(w) && Enabled(w, a) && (a.CallSync? || a.CallAsync?)
    ensures RunAbove(Apply(w, a), actions, w', |w.control|) && |w'.control| == |w.control| ==>
              w'.callStack == w.callStack
  {
    if !RunAbove(Apply(w, a), actions, w', |w.control|) || |w'.control| != |w.control| { return; }
    ReachableInv(w);
    StepInv(w, a);
    RunPrefix(Apply(w, a), actions, w', |w.control|);
    assert w'.control == w.control;
  }

  /** The same for a microtask: no frame is left behind on the call stack between microtasks. */
  lemma IdleStackEmpty(w: World)
    requires Reachable(w) && w.control == []
    ensures w.callStack == []
  {
    ReachableInv(w);
  }

  lemma {:induction false} HitIsSomewhere(ps: seq<Promise>, t: Target)
    requires HeapHits(ps, t) > 0
    ensures exists q | 0 <= q < |ps| :: PromiseHits(ps[q], t) > 0
  {
    var last := |ps| - 1;
    if PromiseHits(ps[last], t) == 0 {
      HitIsSomewhere(ps[..last], t);
    }
  }

  /** No settlement is lost: when the system is idle, a promise from then, catch or finally that is still pending has
      its settling reaction on the lists of a promise that is still pending too. */
  lemma IdlePendingWaits(w: World, p: PromiseId)
    requires Reachable(w) && w.control == [] && w.microtasks == [] && OwesSettling(w, p)
    ensures exists q | 0 <= q < |w.promises| :: PromiseHits(w.promises[q], OfPromise(p)) > 0
  {
    OneSettler(w, p);
    HitIsSomewhere(w.promises, OfPromise(p));
  }
}
