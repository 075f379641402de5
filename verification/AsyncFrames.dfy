/** The call stack mirrors the native stack of function bodies, and no frame is both on it and suspended. */
module AsyncFrames {
  import opened Wrappers
  import opened AsyncMachine
  import opened AsyncWellFormed
  import opened AsyncOwnership

  lemma BodiesPush(c: seq<Activation>, a: Activation)
    ensures Bodies(c + [a]) == Bodies(c) + if a.AsyncBody? || a.SyncBody? then [a.f] else []
  {
    assert (c + [a])[..|c|] == c;
  }

  /** Only promises, microtasks, reports and stamps differ, and no promise changed its origin. */
  ghost predicate SameFrames(w: World, w': World) {
    && w'.callStack == w.callStack && w'.suspendedFrames == w.suspendedFrames && w'.control == w.control
    && |w'.frames| == |w.frames|
    && (forall f | 0 <= f < |w.frames| :: w'.frames[f] == w.frames[f].(awaited := w'.frames[f].awaited))
    && |w.promises| <= |w'.promises|
    && forall p | 0 <= p < |w.promises| :: w'.promises[p].origin == w.promises[p].origin
  }

  lemma SameFramesOk(w: World, w': World)
    requires FramesOk(w) && SameFrames(w, w')
    ensures FramesOk(w')
  {
    forall f | 0 <= f < |w.frames| ensures FrameOk(w', f) { assert FrameOk(w, f); }
    forall f ensures OncePlaced(w', f) { assert OncePlaced(w, f); }
  }

  lemma PushOk(w: World, a: Activation)
    requires FramesOk(w) && !a.AsyncBody? && !a.SyncBody?
    requires a.Delivering? || a.Macrotask? ==> w.control == []
    requires a.InCallback? ==> RunsUserFunction(a.callback.reaction)
    ensures FramesOk(Push(w, a))
  {
    BodiesPush(w.control, a);
    forall f | 0 <= f < |w.frames| ensures FrameOk(Push(w, a), f) { assert FrameOk(w, f); }
    forall f ensures OncePlaced(Push(w, a), f) { assert OncePlaced(w, f); }
  }

  lemma PopOk(w: World)
    requires FramesOk(w) && w.control != [] && !Top(w).AsyncBody? && !Top(w).SyncBody?
    ensures FramesOk(Pop(w))
  {
    forall f | 0 <= f < |w.frames| ensures FrameOk(Pop(w), f) { assert FrameOk(w, f); }
    forall f ensures OncePlaced(Pop(w), f) { assert OncePlaced(w, f); }
  }

  /** Leaving a body pops its own frame, although pop_frame pops whatever is on top. */
  lemma LeaveBody(w: World)
    requires FramesOk(w) && w.control != [] && (Top(w).AsyncBody? || Top(w).SyncBody?)
    ensures w.callStack != [] && w.callStack[|w.callStack| - 1] == Top(w).f
    ensures PopFrame(Pop(w)).callStack + [Top(w).f] == w.callStack
    ensures StackMirrors(PopFrame(Pop(w)))
    ensures forall g :: Count(w.callStack, g) == Count(PopFrame(Pop(w)).callStack, g) + One(g == Top(w).f)
  {
    var w' := PopFrame(Pop(w));
    assert w.callStack == w'.callStack + [Top(w).f];
    forall g ensures Count(w.callStack, g) == Count(w'.callStack, g) + One(g == Top(w).f) {
      CountAppend(w'.callStack, Top(w).f, g);
    }
  }

  lemma ReturnOk(w: World)
    requires FramesOk(w) && w.control != [] && (Top(w).AsyncBody? || Top(w).SyncBody?)
    ensures FramesOk(PopFrame(Pop(w)))
  {
    LeaveBody(w);
    var w' := PopFrame(Pop(w));
    forall f | 0 <= f < |w.frames| ensures FrameOk(w', f) { assert FrameOk(w, f); }
    forall f ensures OncePlaced(w', f) { assert OncePlaced(w, f); }
  }

  lemma CallOk(w: World, promise: Option<PromiseId>)
    requires WellFormed(w) && FramesOk(w) && w.control != []
    requires promise.Some? ==> promise.value < |w.promises| && w.promises[promise.value].origin == OfCall
    ensures FramesOk(Call(w, promise))
  {
    var f := |w.frames|;
    var w' := Call(w, promise);
    var a := w'.control[|w.control|];
    BodiesPush(w.control, a);
    assert AsyncBody(f) !in w.control by {
      assert forall i | 0 <= i < |w.control| :: ActivationExists(w.control[i], |w.promises|, |w.frames|);
    }
    forall g | 0 <= g < |w'.frames| ensures FrameOk(w', g) {
      assert AsyncBody(g) in w'.control <==> AsyncBody(g) in w.control || a == AsyncBody(g);
      if g < f {
        assert FrameOk(w, g);
      }
    }
    forall g ensures OncePlaced(w', g) {
      assert OncePlaced(w, g);
      CountAppend(w.callStack, f, g);
      CountIn(w.callStack, f);
      CountIn(w.suspendedFrames, f);
    }
  }

  /** await takes the current frame off the call stack and puts it among the suspended ones. */
  lemma SuspendOk(w: World, a: Awaited)
    requires WellFormed(w) && FramesOk(w) && w.control != [] && Top(w).AsyncBody? && Top(w).f < |w.frames|
    ensures FramesOk(Pop(Suspend(w, Top(w).f, a)))
  {
    var f := Top(w).f;
    LeaveBody(w);
    var w' := Pop(Suspend(w, f, a));
    assert w'.callStack == PopFrame(Pop(w)).callStack;
    forall g | 0 <= g < |w'.frames| ensures FrameOk(w', g) {
      assert FrameOk(w, g) && FrameOk(w, f);
    }
    forall g ensures OncePlaced(w', g) {
      assert OncePlaced(w, g);
      CountAppend(w.suspendedFrames, f, g);
    }
  }

  /** Resuming moves one frame and leaves every other where it was. */
  lemma ResumePlaces(w: World, f: FrameId, g: FrameId)
    requires f < |w.frames| && f in w.suspendedFrames && f !in w.callStack && OncePlaced(w, g) && OncePlaced(w, f)
    ensures var w' := ResumeFrame(w, f);
            OncePlaced(w', g) && (g in w'.suspendedFrames <==> g in w.suspendedFrames && g != f)
  {
    CountAppend(w.callStack, f, g);
    CountRemove(w.suspendedFrames, f, g);
    CountIn(w.suspendedFrames, g);
    CountIn(w.suspendedFrames, f);
    CountIn(ResumeFrame(w, f).suspendedFrames, g);
  }

  lemma ResumeOk(w: World, f: FrameId)
    requires WellFormed(w) && FramesOk(w) && f < |w.frames| && f in w.suspendedFrames && w.control == []
    ensures f !in w.callStack
    ensures FramesOk(ResumeFrame(w, f)) && f !in ResumeFrame(w, f).suspendedFrames
  {
    var w' := ResumeFrame(w, f);
    assert OncePlaced(w, f);
    CountIn(w.callStack, f);
    CountIn(w.suspendedFrames, f);
    assert w'.control == [AsyncBody(f)];
    BodiesPush(w.control, AsyncBody(f));
    forall g ensures OncePlaced(w', g) && (g in w'.suspendedFrames <==> g in w.suspendedFrames && g != f) {
      ResumePlaces(w, f, g);
    }
    hide OncePlaced, Remove;
    forall g | 0 <= g < |w'.frames| ensures FrameOk(w', g) {
      assert FrameOk(w, g);
    }
  }
}
