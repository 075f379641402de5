/** Byte accounting: vectors that report every change of capacity to one global counter. */
module TrackedVectors {
  import opened Wrappers

  const SIZE_T_RANGE: nat := 0x1_0000_0000_0000_0000

  /** A std::vector: its elements and the capacity of its block. */
  datatype Vec<T> = Vec(elements: seq<T>, capacity: nat) {
    predicate Valid() {
      |elements| <= capacity
    }
  }

  /** The tracked vectors by number, None once destroyed. */
  type Live<T> = seq<Option<Vec<T>>>

  ghost predicate Alive<T>(live: Live<T>, i: nat) {
    i < |live| && live[i].Some?
  }

  function Capacity<T>(slot: Option<Vec<T>>): nat {
    match slot
    case None => 0
    case Some(v) => v.capacity
  }

  function Total<T>(live: Live<T>): nat {
    if live == [] then 0 else Total(live[..|live| - 1]) + Capacity(live[|live| - 1])
  }

  /** What is done to one vector or between two. The capacity std::vector chooses is part of the operation. */
  datatype Op<T> =
    | FromVector(other: Vec<T>)
    | CopyConstruct(source: nat, capacity: nat)
    | MoveConstruct(source: nat)
    | CopyAssign(target: nat, source: nat, capacity: nat)
    | CopyAssignVector(target: nat, other: Vec<T>, capacity: nat)
    | MoveAssign(target: nat, source: nat)
    | MoveAssignVector(target: nat, other: Vec<T>)
    | Change(target: nat, elements: seq<T>, capacity: nat)
    | Reserve(target: nat, wanted: nat, capacity: nat)
    | Shorten(target: nat, elements: seq<T>)
    | Swap(target: nat, source: nat)
    | SwapWithVector(target: nat, other: Vec<T>)
    | Destroy(target: nat)

  /** The vectors named exist, and the capacities chosen hold the elements. */
  ghost predicate Applicable<T>(live: Live<T>, op: Op<T>) {
    match op
    case FromVector(other) => other.Valid()
    case CopyConstruct(s, c) => Alive(live, s) && |live[s].value.elements| <= c
    case MoveConstruct(s) => Alive(live, s)
    case CopyAssign(t, s, c) => Alive(live, t) && Alive(live, s) && |live[s].value.elements| <= c
    case CopyAssignVector(t, other, c) => Alive(live, t) && |other.elements| <= c
    case MoveAssign(t, s) => Alive(live, t) && Alive(live, s)
    case MoveAssignVector(t, other) => Alive(live, t) && other.Valid()
    case Change(t, elements, c) => Alive(live, t) && |elements| <= c
    case Reserve(t, wanted, c) => Alive(live, t) && (wanted > live[t].value.capacity ==> c >= wanted)
    case Shorten(t, elements) => Alive(live, t) && |elements| <= |live[t].value.elements|
    case Swap(t, s) => Alive(live, t) && Alive(live, s)
    case SwapWithVector(t, other) => Alive(live, t) && other.Valid()
    case Destroy(t) => Alive(live, t)
  }

  /** The vectors afterwards. */
  ghost function After<T>(live: Live<T>, op: Op<T>): Live<T>
    requires Applicable(live, op)
  {
    match op
    case FromVector(other) => live + [Some(other)]
    case CopyConstruct(s, c) => live + [Some(Vec(live[s].value.elements, c))]
    case MoveConstruct(s) => live[s := Some(Vec([], 0))] + [live[s]]
    case CopyAssign(t, s, c) => if t == s then live else live[t := Some(Vec(live[s].value.elements, c))]
    case CopyAssignVector(t, other, c) => live[t := Some(Vec(other.elements, c))]
    case MoveAssign(t, s) => if t == s then live else live[t := live[s]][s := Some(Vec([], 0))]
    case MoveAssignVector(t, other) => live[t := Some(other)]
    case Change(t, elements, c) => live[t := Some(Vec(elements, c))]
    case Reserve(t, wanted, c) =>
      if wanted <= live[t].value.capacity then live else live[t := Some(Vec(live[t].value.elements, c))]
    case Shorten(t, elements) => live[t := Some(Vec(elements, live[t].value.capacity))]
    case Swap(t, s) => live[t := live[s]][s := live[t]]
    case SwapWithVector(t, other) => live[t := Some(other)]
    case Destroy(t) => live[t := None]
  }

  /** The vectors an operation names. */
  function Named<T>(op: Op<T>): set<nat> {
    match op
    case FromVector(_) => {}
    case CopyConstruct(s, _) => {s}
    case MoveConstruct(s) => {s}
    case CopyAssign(t, s, _) => {t, s}
    case MoveAssign(t, s) => {t, s}
    case Swap(t, s) => {t, s}
    case _ => {op.target}
  }

  function Elements<T>(slot: Option<Vec<T>>): seq<T> {
    match slot
    case None => []
    case Some(v) => v.elements
  }

  /** Whatever is done, the vectors not named keep their blocks and elements, and at most one vector is made. */
  lemma OthersAreUntouched<T>(live: Live<T>, op: Op<T>, i: nat)
    requires Applicable(live, op)
    ensures |live| <= |After(live, op)| <= |live| + 1
    ensures i < |live| && i !in Named(op) ==> After(live, op)[i] == live[i]
  {
  }

  /** A swap exchanges the two blocks with their elements, and a second one undoes it. */
  lemma SwapExchanges<T>(live: Live<T>, t: nat, s: nat)
    requires Applicable(live, Op<T>.Swap(t, s))
    ensures var after := After(live, Op<T>.Swap(t, s));
            && after[t] == live[s] && after[s] == live[t]
            && Applicable(after, Op<T>.Swap(t, s)) && After(after, Op<T>.Swap(t, s)) == live
  {
  }

  /** A moved vector's block with its elements is the other's now, and the vector moved from is empty; a vector moved to
      itself stays as it is. */
  lemma MoveHandsOver<T>(live: Live<T>, t: nat, s: nat)
    requires Applicable(live, Op<T>.MoveAssign(t, s))
    ensures var a, c := After(live, Op<T>.MoveAssign(t, s)), After(live, Op<T>.MoveConstruct(s));
            && a[t] == live[s] && (t == s ==> a == live) && (t != s ==> a[s] == Some(Vec([], 0)))
            && |c| == |live| + 1 && c[|live|] == live[s] && c[s] == Some(Vec([], 0))
  {
  }

  /** A copy has the elements of its source, which keeps its own and its block. */
  lemma CopyKeepsSource<T>(live: Live<T>, t: nat, s: nat, capacity: nat)
    requires Applicable(live, Op<T>.CopyAssign(t, s, capacity))
    ensures var a, c := After(live, Op<T>.CopyAssign(t, s, capacity)), After(live, Op<T>.CopyConstruct(s, capacity));
            && a[t].Some? && Elements(a[t]) == Elements(live[s]) && a[s] == live[s]
            && |c| == |live| + 1 && c[|live|] == Some(Vec(Elements(live[s]), capacity)) && c[s] == live[s]
  {
  }

  /** A reservation keeps the elements and leaves room for what was wanted. */
  lemma ReserveKeepsElements<T>(live: Live<T>, t: nat, wanted: nat, capacity: nat)
    requires Applicable(live, Op<T>.Reserve(t, wanted, capacity)) && live[t].value.Valid()
    ensures var after := After(live, Op<T>.Reserve(t, wanted, capacity));
            Elements(after[t]) == Elements(live[t]) && Capacity(after[t]) >= wanted
            && Capacity(after[t]) >= Capacity(live[t])
  {
  }

  /** What a move assignment between two tracked vectors counts a second time. */
  ghost function Stolen<T>(live: Live<T>, op: Op<T>): nat
    requires Applicable(live, op)
  {
    match op
    case MoveAssign(t, s) => if t == s then 0 else live[s].value.capacity
    case _ => 0
  }

  // ---------- the counter ----------

  /** adjust_tracking_on_capacity_change on an atomic size_t. */
  function Adjusted(counter: nat, width: nat, oldCap: nat, newCap: nat): (c: nat)
    requires counter < SIZE_T_RANGE
    ensures c < SIZE_T_RANGE
  {
    var oldBytes, newBytes := oldCap * width, newCap * width;
    if newBytes > oldBytes then (counter + (newBytes - oldBytes)) % SIZE_T_RANGE
    else (counter - (oldBytes - newBytes)) % SIZE_T_RANGE
  }

  predicate Underflows(counter: nat, width: nat, oldCap: nat, newCap: nat) {
    counter + newCap * width < oldCap * width
  }

  lemma AdjustedAdds(counter: nat, held: nat, width: nat, oldCap: nat, newCap: nat)
    requires counter == held * width % SIZE_T_RANGE && held >= oldCap
    ensures Adjusted(counter, width, oldCap, newCap) == (held - oldCap + newCap) * width % SIZE_T_RANGE
    ensures held * width < SIZE_T_RANGE ==> !Underflows(counter, width, oldCap, newCap)
  {
    assert (held - oldCap + newCap) * width == held * width - oldCap * width + newCap * width;
    assert (held - oldCap) * width == held * width - oldCap * width;
    assert (held - oldCap) * width >= 0;
    ModShift(held * width, newCap * width - oldCap * width);
    if held * width < SIZE_T_RANGE {
      assert held * width % SIZE_T_RANGE == held * width;
    }
  }

  lemma ModShift(a: int, d: int)
    ensures (a % SIZE_T_RANGE + d) % SIZE_T_RANGE == (a + d) % SIZE_T_RANGE
  {
  }

  lemma {:induction false} TotalUpdate<T>(live: Live<T>, i: nat, slot: Option<Vec<T>>)
    requires i < |live|
    ensures Total(live[i := slot]) == Total(live) - Capacity(live[i]) + Capacity(slot)
    ensures Capacity(live[i]) <= Total(live)
  {
    var n := |live| - 1;
    if i == n {
      assert live[i := slot][..n] == live[..n];
    } else {
      TotalUpdate(live[..n], i, slot);
      assert live[i := slot][..n] == live[..n][i := slot];
    }
  }

  lemma TotalAppend<T>(live: Live<T>, slot: Option<Vec<T>>)
    ensures Total(live + [slot]) == Total(live) + Capacity(slot)
  {
    assert (live + [slot])[..|live|] == live;
  }

  // ---------- runs ----------

  /** The capacity changes an operation reports, in the order of its calls. */
  ghost function Calls<T>(live: Live<T>, op: Op<T>): seq<(nat, nat)>
    requires Applicable(live, op)
  {
    match op
    case FromVector(other) => [(0, other.capacity)]
    case CopyConstruct(s, c) => [(0, c)]
    case MoveConstruct(s) => []
    case CopyAssign(t, s, c) => if t == s then [] else [(live[t].value.capacity, c)]
    case CopyAssignVector(t, other, c) => [(live[t].value.capacity, c)]
    case MoveAssign(t, s) =>
      if t == s then [] else [(live[t].value.capacity, 0), (0, live[s].value.capacity)]
    case MoveAssignVector(t, other) => [(live[t].value.capacity, 0), (0, other.capacity)]
    case Change(t, elements, c) => [(live[t].value.capacity, c)]
    case Reserve(t, wanted, c) =>
      if wanted <= live[t].value.capacity then [] else [(live[t].value.capacity, c)]
    case Shorten(t, elements) => []
    case Swap(t, s) => []
    case SwapWithVector(t, other) => [(live[t].value.capacity, other.capacity)]
    case Destroy(t) => [(live[t].value.capacity, 0)]
  }

  ghost function Reported(counter: nat, width: nat, calls: seq<(nat, nat)>): (c: nat)
    requires counter < SIZE_T_RANGE
    ensures c < SIZE_T_RANGE
    decreases |calls|
  {
    if calls == [] then counter
    else Reported(Adjusted(counter, width, calls[0].0, calls[0].1), width, calls[1..])
  }

  ghost predicate AnyUnderflow(counter: nat, width: nat, calls: seq<(nat, nat)>)
    requires counter < SIZE_T_RANGE
    decreases |calls|
  {
    calls != [] &&
    (Underflows(counter, width, calls[0].0, calls[0].1)
     || AnyUnderflow(Adjusted(counter, width, calls[0].0, calls[0].1), width, calls[1..]))
  }

  ghost predicate Runs<T>(live: Live<T>, ops: seq<Op<T>>)
    decreases |ops|
  {
    ops != [] ==> Applicable(live, ops[0]) && Runs(After(live, ops[0]), ops[1..])
  }

  ghost function LiveAfter<T>(live: Live<T>, ops: seq<Op<T>>): Live<T>
    requires Runs(live, ops)
    decreases |ops|
  {
    if ops == [] then live else LiveAfter(After(live, ops[0]), ops[1..])
  }

  ghost function StolenBy<T>(live: Live<T>, ops: seq<Op<T>>): nat
    requires Runs(live, ops)
    decreases |ops|
  {
    if ops == [] then 0 else Stolen(live, ops[0]) + StolenBy(After(live, ops[0]), ops[1..])
  }

  ghost function CounterAfter<T>(live: Live<T>, counter: nat, width: nat, ops: seq<Op<T>>): nat
    requires Runs(live, ops) && counter < SIZE_T_RANGE
    decreases |ops|
  {
    if ops == [] then counter
    else CounterAfter(After(live, ops[0]), Reported(counter, width, Calls(live, ops[0])), width, ops[1..])
  }

  /** One operation: the counter stays the bytes of the blocks held plus those counted twice, so far `extra`. */
  lemma StepAccounts<T>(live: Live<T>, op: Op<T>, counter: nat, width: nat, extra: nat)
    requires Applicable(live, op) && counter == (Total(live) + extra) * width % SIZE_T_RANGE
    ensures Reported(counter, width, Calls(live, op))
            == (Total(After(live, op)) + extra + Stolen(live, op)) * width % SIZE_T_RANGE
    ensures (Total(live) + extra) * width < SIZE_T_RANGE ==> !AnyUnderflow(counter, width, Calls(live, op))
  {
    var calls := Calls(live, op);
    var held := Total(live) + extra;
    TotalStep(live, op);
    if calls == [] {
      return;
    }
    hide Adjusted, Underflows, Reported, AnyUnderflow, After, Calls, Stolen, Applicable, Total;
    ReportedOnce(counter, width, calls);
    AdjustedAdds(counter, held, width, calls[0].0, calls[0].1);
    if |calls| == 2 {
      AdjustedAdds(Adjusted(counter, width, calls[0].0, calls[0].1), held - calls[0].0, width, 0, calls[1].1);
      OnlyAdds(Adjusted(counter, width, calls[0].0, calls[0].1), width, calls[1].1);
    }
  }

  lemma OnlyAdds(counter: nat, width: nat, newCap: nat)
    ensures !Underflows(counter, width, 0, newCap)
  {
    assert newCap * width >= 0;
  }

  function Gain(call: (nat, nat)): int {
    call.1 - call.0
  }

  lemma {:induction false} ReportedOnce(counter: nat, width: nat, calls: seq<(nat, nat)>)
    requires counter < SIZE_T_RANGE && 1 <= |calls| <= 2
    ensures var mid := Adjusted(counter, width, calls[0].0, calls[0].1);
            && Reported(counter, width, calls)
               == (if |calls| == 1 then mid else Adjusted(mid, width, calls[1].0, calls[1].1))
            && (AnyUnderflow(counter, width, calls)
                <==> Underflows(counter, width, calls[0].0, calls[0].1)
                     || (|calls| == 2 && Underflows(mid, width, calls[1].0, calls[1].1)))
    decreases |calls|
  {
    hide Adjusted, Underflows;
    if |calls| == 2 {
      assert calls[1..][0] == calls[1];
      ReportedOnce(Adjusted(counter, width, calls[0].0, calls[0].1), width, calls[1..]);
    } else {
      assert calls[1..] == [];
    }
  }

  /** What the reports of an operation add up to. */
  lemma TotalStep<T>(live: Live<T>, op: Op<T>)
    requires Applicable(live, op)
    ensures var calls := Calls(live, op);
            var change := (if |calls| > 0 then Gain(calls[0]) else 0) + (if |calls| > 1 then Gain(calls[1]) else 0);
            && |calls| <= 2
            && (|calls| > 0 ==> calls[0].0 <= Total(live))
            && (|calls| > 1 ==> calls[0].1 == 0 && calls[1].0 == 0)
            && Total(After(live, op)) + Stolen(live, op) == Total(live) + change
  {
    hide Total;
    match op
    case FromVector(other) => TotalAppend(live, Some(other));
    case CopyConstruct(s, c) => TotalAppend(live, Some(Vec(live[s].value.elements, c)));
    case MoveConstruct(s) =>
      TotalUpdate(live, s, Some(Vec([], 0)));
      TotalAppend(live[s := Some(Vec([], 0))], live[s]);
    case CopyAssign(t, s, c) => TotalUpdate(live, t, Some(Vec(live[s].value.elements, c)));
    case CopyAssignVector(t, other, c) => TotalUpdate(live, t, Some(Vec(other.elements, c)));
    case MoveAssign(t, s) =>
      TotalUpdate(live, t, live[s]);
      TotalUpdate(live[t := live[s]], s, Some(Vec([], 0)));
    case MoveAssignVector(t, other) => TotalUpdate(live, t, Some(other));
    case Change(t, elements, c) => TotalUpdate(live, t, Some(Vec(elements, c)));
    case Reserve(t, wanted, c) => TotalUpdate(live, t, Some(Vec(live[t].value.elements, c)));
    case Shorten(t, elements) => TotalUpdate(live, t, Some(Vec(elements, live[t].value.capacity)));
    case Swap(t, s) =>
      TotalUpdate(live, t, live[s]);
      TotalUpdate(live[t := live[s]], s, live[t]);
    case SwapWithVector(t, other) => TotalUpdate(live, t, Some(other));
    case Destroy(t) => TotalUpdate<T>(live, t, None);
  }

  /** Any run: the counter is the bytes held plus, for every tracked-to-tracked move assignment, the block it moved. */
  lemma {:induction false} RunAccounts<T>(live: Live<T>, counter: nat, width: nat, extra: nat, ops: seq<Op<T>>)
    requires Runs(live, ops) && counter == (Total(live) + extra) * width % SIZE_T_RANGE
    ensures CounterAfter(live, counter, width, ops)
            == (Total(LiveAfter(live, ops)) + extra + StolenBy(live, ops)) * width % SIZE_T_RANGE
    decreases |ops|
  {
    if ops != [] {
      StepAccounts(live, ops[0], counter, width, extra);
      RunAccounts(After(live, ops[0]), Reported(counter, width, Calls(live, ops[0])), width,
                  extra + Stolen(live, ops[0]), ops[1..]);
    }
  }

  lemma Surplus(held: nat, twice: nat, width: nat)
    requires width > 0
    ensures (held + twice) * width >= held * width
    ensures (held + twice) * width == held * width <==> twice == 0
  {
    assert (held + twice) * width == held * width + twice * width;
    assert twice > 0 ==> twice * width > 0;
    assert 0 * width == 0;
  }

  /** From a fresh start, as long as size_t holds the sum: the counter says what is held exactly when no tracked
      vector was ever move-assigned a non-empty block of another, and it is too large otherwise, never too small. */
  lemma CounterExactly<T>(width: nat, ops: seq<Op<T>>)
    requires width > 0 && Runs<T>([], ops)
    requires (Total(LiveAfter([], ops)) + StolenBy([], ops)) * width < SIZE_T_RANGE
    ensures var counter, held := CounterAfter([], 0, width, ops), Total(LiveAfter([], ops)) * width;
            (counter == held <==> NothingStolen([], ops)) && counter >= held
  {
    assert Total<T>([]) + 0 == 0 && 0 * width == 0;
    hide Total, LiveAfter, StolenBy, CounterAfter, NothingStolen, Runs;
    RunAccounts([], 0, width, 0, ops);
    var held, twice := Total(LiveAfter([], ops)), StolenBy([], ops);
    StolenIsZero([], ops);
    Surplus(held, twice, width);
  }

  /** Checked before each operation: it is no move assignment of a tracked vector that holds a block. */
  ghost predicate NothingStolen<T>(live: Live<T>, ops: seq<Op<T>>)
    requires Runs(live, ops)
    decreases |ops|
  {
    ops != [] ==>
      (ops[0].MoveAssign? && ops[0].target != ops[0].source ==> live[ops[0].source].value.capacity == 0)
      && NothingStolen(After(live, ops[0]), ops[1..])
  }

  lemma {:induction false} StolenIsZero<T>(live: Live<T>, ops: seq<Op<T>>)
    requires Runs(live, ops)
    ensures StolenBy(live, ops) == 0 <==> NothingStolen(live, ops)
    decreases |ops|
  {
    if ops != [] {
      StolenIsZero(After(live, ops[0]), ops[1..]);
    }
  }

  /** An empty vector, a one-byte vector, the second move-assigned to the first: one byte is held, two are counted. */
  lemma MovedBlockCountedTwice()
    ensures var ops := [FromVector(Vec([], 0)), FromVector(Vec([7], 1)), MoveAssign(0, 1)];
            Runs([], ops) && Total(LiveAfter([], ops)) == 1 && CounterAfter([], 0, 1, ops) == 2
  {
    var empty, full := Some(Vec([], 0)), Some(Vec([7], 1));
    var ops := [FromVector(Vec([], 0)), FromVector(Vec([7], 1)), MoveAssign(0, 1)];
    assert ops[1..] == [FromVector(Vec([7], 1)), MoveAssign(0, 1)] && ops[1..][1..] == [MoveAssign(0, 1)];
    assert After([], ops[0]) == [empty] && After([empty], ops[1]) == [empty, full];
    assert After([empty, full], ops[2]) == [full, empty];
    assert ops[1..][1..][1..] == [];
    assert LiveAfter([], ops) == [full, empty];
    assert [full, empty][..1] == [full] && [full][..0] == [];
    assert Total([full]) == 1;
    StolenBlock(ops, empty, full);
    assert Total<int>([]) + 0 == 0;
    RunAccounts([], 0, 1, 0, ops);
  }

  lemma StolenBlock(ops: seq<Op<int>>, empty: Option<Vec<int>>, full: Option<Vec<int>>)
    requires empty == Some(Vec([], 0)) && full == Some(Vec([7], 1))
    requires ops == [FromVector(Vec([], 0)), FromVector(Vec([7], 1)), MoveAssign(0, 1)] && Runs([], ops)
    ensures StolenBy([], ops) == 1
  {
    assert After([], ops[0]) == [empty] && After([empty], ops[1]) == [empty, full];
    assert ops[1..][0] == ops[1] && ops[1..][1..] == [ops[2]] && [ops[2]][1..] == [];
    assert StolenBy([empty, full], [ops[2]]) == 1;
  }

  /** While size_t holds the sum before each operation, no subtraction anywhere in the run goes below zero. */
  ghost predicate Fits<T>(live: Live<T>, width: nat, extra: nat, ops: seq<Op<T>>)
    requires Runs(live, ops)
    decreases |ops|
  {
    && (Total(live) + extra) * width < SIZE_T_RANGE
    && (ops != [] ==> Fits(After(live, ops[0]), width, extra + Stolen(live, ops[0]), ops[1..]))
  }

  ghost predicate EverUnderflows<T>(live: Live<T>, counter: nat, width: nat, ops: seq<Op<T>>)
    requires Runs(live, ops) && counter < SIZE_T_RANGE
    decreases |ops|
  {
    ops != [] &&
    (AnyUnderflow(counter, width, Calls(live, ops[0]))
     || EverUnderflows(After(live, ops[0]), Reported(counter, width, Calls(live, ops[0])), width, ops[1..]))
  }

  lemma {:induction false} NeverUnderflows<T>(live: Live<T>, counter: nat, width: nat, extra: nat, ops: seq<Op<T>>)
    requires Runs(live, ops) && counter == (Total(live) + extra) * width % SIZE_T_RANGE
    requires Fits(live, width, extra, ops)
    ensures !EverUnderflows(live, counter, width, ops)
    decreases |ops|
  {
    if ops != [] {
      StepAccounts(live, ops[0], counter, width, extra);
      NeverUnderflows(After(live, ops[0]), Reported(counter, width, Calls(live, ops[0])), width,
                      extra + Stolen(live, ops[0]), ops[1..]);
    }
  }

  /** The process: its tracked vectors and the counter g_buffer_bytes. */
  class Memory<T> {
    const width: nat
    var live: Live<T>
    var counter: nat
    /** What move assignments have counted twice. */
    ghost var stolen: nat

    /** The counter holds the bytes of the live blocks and of those counted twice. */
    ghost predicate Valid()
      reads this
    {
      && counter == (Total(live) + stolen) * width % SIZE_T_RANGE
      && forall i: nat | Alive(live, i) :: live[i].value.Valid()
    }

    twostate predicate Does(op: Op<T>)
      reads this
      requires old(Valid())
    {
      && Applicable(old(live), op)
      && live == After(old(live), op)
      && counter == Reported(old(counter), width, Calls(old(live), op))
      && stolen == old(stolen) + Stolen(old(live), op)
    }

    constructor (width: nat)
      ensures Valid() && live == [] && counter == 0 && stolen == 0 && this.width == width
    {
      this.width := width;
      live, counter, stolen := [], 0, 0;
    }

    /** Settles the ghost account before an operation: what its reports will make of the counter. */
    ghost method Account(op: Op<T>)
      requires Valid() && Applicable(live, op)
      modifies this`stolen
      ensures stolen == old(stolen) + Stolen(live, op)
      ensures Reported(counter, width, Calls(live, op)) == (Total(After(live, op)) + stolen) * width % SIZE_T_RANGE
    {
      StepAccounts(live, op, counter, width, stolen);
      stolen := stolen + Stolen(live, op);
    }

    method AdjustTracking(oldCap: nat, newCap: nat)
      requires counter < SIZE_T_RANGE
      modifies this`counter
      ensures counter == Adjusted(old(counter), width, oldCap, newCap)
    {
      var oldBytes, newBytes := oldCap * width, newCap * width;
      if newBytes > oldBytes {
        counter := (counter + (newBytes - oldBytes)) % SIZE_T_RANGE;
      } else if newBytes < oldBytes {
        counter := (counter - (oldBytes - newBytes)) % SIZE_T_RANGE;
      }
    }

    method FromVector(other: Vec<T>)
      requires Valid() && Applicable(live, Op.FromVector(other))
      modifies this
      ensures Valid() && Does(Op.FromVector(other))
    {
      Account(Op.FromVector(other));
      live := live + [Some(other)];
      AdjustTracking(0, other.capacity);
    }

    method CopyConstruct(source: nat, capacity: nat)
      requires Valid() && Applicable(live, Op.CopyConstruct(source, capacity))
      modifies this
      ensures Valid() && Does(Op.CopyConstruct(source, capacity))
    {
      Account(Op.CopyConstruct(source, capacity));
      live := live + [Some(Vec(live[source].value.elements, capacity))];
      AdjustTracking(0, capacity);
    }

    method MoveConstruct(source: nat)
      requires Valid() && Applicable(live, Op.MoveConstruct(source))
      modifies this
      ensures Valid() && Does(Op.MoveConstruct(source))
    {
      Account(Op.MoveConstruct(source));
      live := live + [live[source]];
      live := live[source := Some(Vec([], 0))];
      assert live == After(old(live), Op.MoveConstruct(source));
    }

    method CopyAssign(target: nat, source: nat, capacity: nat)
      requires Valid() && Applicable(live, Op.CopyAssign(target, source, capacity))
      modifies this
      ensures Valid() && Does(Op.CopyAssign(target, source, capacity))
    {
      Account(Op.CopyAssign(target, source, capacity));
      if target == source { return; }
      var oldCap := live[target].value.capacity;
      live := live[target := Some(Vec(live[source].value.elements, capacity))];
      AdjustTracking(oldCap, live[target].value.capacity);
    }

    method CopyAssignVector(target: nat, other: Vec<T>, capacity: nat)
      requires Valid() && Applicable(live, Op.CopyAssignVector(target, other, capacity))
      modifies this
      ensures Valid() && Does(Op.CopyAssignVector(target, other, capacity))
    {
      Account(Op.CopyAssignVector(target, other, capacity));
      var oldCap := live[target].value.capacity;
      live := live[target := Some(Vec(other.elements, capacity))];
      AdjustTracking(oldCap, live[target].value.capacity);
    }

    /** Subtracts the target's block and then adds the source's, which the counter already holds. */
    method MoveAssign(target: nat, source: nat)
      requires Valid() && Applicable(live, Op<T>.MoveAssign(target, source))
      modifies this
      ensures Valid() && Does(Op.MoveAssign(target, source))
    {
      Account(Op<T>.MoveAssign(target, source));
      if target == source { return; }
      AdjustTracking(live[target].value.capacity, 0);
      live := live[target := live[source]];
      live := live[source := Some(Vec([], 0))];
      AdjustTracking(0, live[target].value.capacity);
      ReportedOnce(old(counter), width, Calls(old(live), Op.MoveAssign(target, source)));
    }

    method MoveAssignVector(target: nat, other: Vec<T>)
      requires Valid() && Applicable(live, Op.MoveAssignVector(target, other))
      modifies this
      ensures Valid() && Does(Op.MoveAssignVector(target, other))
    {
      Account(Op.MoveAssignVector(target, other));
      AdjustTracking(live[target].value.capacity, 0);
      live := live[target := Some(other)];
      AdjustTracking(0, live[target].value.capacity);
      ReportedOnce(old(counter), width, Calls(old(live), Op.MoveAssignVector(target, other)));
    }

    /** push_back, emplace_back, resize, assign, insert and shrink_to_fit: the block is reported when it changed. */
    method Change(target: nat, elements: seq<T>, capacity: nat)
      requires Valid() && Applicable(live, Op.Change(target, elements, capacity))
      modifies this
      ensures Valid() && Does(Op.Change(target, elements, capacity))
    {
      Account(Op.Change(target, elements, capacity));
      var oldCap := live[target].value.capacity;
      live := live[target := Some(Vec(elements, capacity))];
      if live[target].value.capacity != oldCap {
        AdjustTracking(oldCap, live[target].value.capacity);
      }
    }

    method Reserve(target: nat, wanted: nat, capacity: nat)
      requires Valid() && Applicable(live, Op<T>.Reserve(target, wanted, capacity))
      modifies this
      ensures Valid() && Does(Op.Reserve(target, wanted, capacity))
    {
      Account(Op<T>.Reserve(target, wanted, capacity));
      var oldCap := live[target].value.capacity;
      if wanted <= oldCap { return; }
      live := live[target := Some(Vec(live[target].value.elements, capacity))];
      AdjustTracking(oldCap, live[target].value.capacity);
    }

    /** clear, pop_back and erase keep the block. */
    method Shorten(target: nat, elements: seq<T>)
      requires Valid() && Applicable(live, Op.Shorten(target, elements))
      modifies this
      ensures Valid() && Does(Op.Shorten(target, elements))
    {
      Account(Op.Shorten(target, elements));
      live := live[target := Some(Vec(elements, live[target].value.capacity))];
    }

    method Swap(target: nat, source: nat)
      requires Valid() && Applicable(live, Op<T>.Swap(target, source))
      modifies this
      ensures Valid() && Does(Op.Swap(target, source))
    {
      Account(Op<T>.Swap(target, source));
      live := live[target := live[source]][source := live[target]];
    }

    method SwapWithVector(target: nat, other: Vec<T>) returns (given: Vec<T>)
      requires Valid() && Applicable(live, Op.SwapWithVector(target, other))
      modifies this
      ensures Valid() && Does(Op.SwapWithVector(target, other)) && given == old(live[target].value)
    {
      Account(Op.SwapWithVector(target, other));
      given := live[target].value;
      live := live[target := Some(other)];
      AdjustTracking(given.capacity, live[target].value.capacity);
    }

    method Destroy(target: nat)
      requires Valid() && Applicable(live, Op<T>.Destroy(target))
      modifies this
      ensures Valid() && Does(Op.Destroy(target))
    {
      Account(Op<T>.Destroy(target));
      AdjustTracking(live[target].value.capacity, 0);
      live := live[target := None];
    }
  }
}
