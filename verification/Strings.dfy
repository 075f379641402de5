/** split, join and replaceAll on plain strings. */
module Strings {
  import opened Wrappers

  predicate OccursAt(s: string, sep: string, i: nat) {
    i + |sep| <= |s| && s[i..i + |sep|] == sep
  }

  ghost predicate Contains(s: string, sep: string) {
    exists i: nat :: OccursAt(s, sep, i)
  }

  /** std::string::find from a position: the first occurrence at or after it. */
  function Find(s: string, sep: string, from: nat): (r: Option<nat>)
    ensures r.Some? ==> from <= r.value && OccursAt(s, sep, r.value)
                        && forall i: nat | from <= i < r.value :: !OccursAt(s, sep, i)
    ensures r.None? ==> forall i: nat | from <= i :: !OccursAt(s, sep, i)
    decreases |s| - from
  {
    if OccursAt(s, sep, from) then Some(from)
    else if from >= |s| then None
    else
      var r := Find(s, sep, from + 1);
      r
  }

  /** The pieces of s from position prev on. */
  function Pieces(s: string, sep: string, prev: nat): seq<string>
    requires sep != [] && prev <= |s|
    decreases |s| - prev
  {
    match Find(s, sep, prev)
    case None => [s[prev..]]
    case Some(pos) => [s[prev..pos]] + Pieces(s, sep, pos + |sep|)
  }

  function Chars(s: string): seq<string> {
    seq(|s|, i requires 0 <= i < |s| => [s[i]])
  }

  /** s.split(sep): an empty separator splits into characters. */
  function Split(s: string, sep: string): seq<string> {
    if sep == [] then Chars(s) else Pieces(s, sep, 0)
  }

  function Join(parts: seq<string>, sep: string): string {
    if parts == [] then []
    else if |parts| == 1 then parts[0]
    else parts[0] + sep + Join(parts[1..], sep)
  }

  // ---------- the loops ----------

  method SplitString(s: string, sep: string) returns (out: seq<string>)
    ensures out == Split(s, sep)
  {
    out := [];
    if sep == [] {
      for i := 0 to |s|
        invariant out == Chars(s)[..i]
      {
        out := out + [[s[i]]];
      }
      return;
    }
    var prev := 0;
    var pos := Find(s, sep, prev);
    while pos.Some?
      invariant prev <= |s| && pos == Find(s, sep, prev) && out + Pieces(s, sep, prev) == Split(s, sep)
      decreases |s| - prev
    {
      MovePiece(out, s[prev..pos.value], Pieces(s, sep, pos.value + |sep|));
      out := out + [s[prev..pos.value]];
      prev := pos.value + |sep|;
      pos := Find(s, sep, prev);
    }
    out := out + [s[prev..]];
  }

  method JoinStrings(parts: seq<string>, sep: string) returns (r: string)
    ensures r == Join(parts, sep)
  {
    r := [];
    for i := 0 to |parts|
      invariant r == Join(parts[..i], sep)
    {
      JoinOneMore(parts[..i], parts[i], sep);
      assert parts[..i + 1] == parts[..i] + [parts[i]];
      if i > 0 {
        r := r + sep;
      }
      r := r + parts[i];
    }
    assert parts[..|parts|] == parts;
  }

  /** The text replaceAll has produced once the pieces done are behind it. */
  ghost function Replaced(done: seq<string>, newv: string): string {
    if done == [] then [] else Join(done, newv) + newv
  }

  lemma ReplacedOneMore(done: seq<string>, piece: string, newv: string)
    ensures Replaced(done + [piece], newv) == Replaced(done, newv) + piece + newv
  {
    JoinOneMore(done, piece, newv);
    hide Join;
    if done == [] {
      assert [] + piece + newv == piece + newv;
    }
  }

  /** Moving one piece from what is left to what is done. */
  lemma MovePiece(done: seq<string>, piece: string, rest: seq<string>)
    ensures (done + [piece]) + rest == done + ([piece] + rest)
  {
  }

  method ReplaceAll(s: string, oldv: string, newv: string) returns (r: string)
    ensures r == if oldv == [] then s else Join(Split(s, oldv), newv)
  {
    if oldv == [] { return s; }
    r := [];
    ghost var done: seq<string> := [];
    var prev := 0;
    var pos := Find(s, oldv, prev);
    while pos.Some?
      invariant prev <= |s| && pos == Find(s, oldv, prev)
      invariant done + Pieces(s, oldv, prev) == Split(s, oldv)
      invariant r == Replaced(done, newv)
      decreases |s| - prev
    {
      ReplacedOneMore(done, s[prev..pos.value], newv);
      MovePiece(done, s[prev..pos.value], Pieces(s, oldv, pos.value + |oldv|));
      done := done + [s[prev..pos.value]];
      r := r + s[prev..pos.value];
      r := r + newv;
      prev := pos.value + |oldv|;
      pos := Find(s, oldv, prev);
    }
    JoinOneMore(done, s[prev..], newv);
    r := r + s[prev..];
  }

  // ---------- what they promise ----------

  lemma {:induction false} JoinOneMore(parts: seq<string>, last: string, sep: string)
    ensures Join(parts + [last], sep) == if parts == [] then last else Join(parts, sep) + sep + last
  {
    if |parts| == 1 {
      assert (parts + [last])[1..] == [last];
    } else if |parts| > 1 {
      JoinOneMore(parts[1..], last, sep);
      assert (parts + [last])[1..] == parts[1..] + [last];
      assert parts[0] + sep + (Join(parts[1..], sep) + sep + last)
          == parts[0] + sep + Join(parts[1..], sep) + sep + last;
    }
  }

  lemma {:induction false} JoinPieces(s: string, sep: string, prev: nat)
    requires sep != [] && prev <= |s|
    ensures Join(Pieces(s, sep, prev), sep) == s[prev..]
    decreases |s| - prev
  {
    var pos := Find(s, sep, prev);
    if pos.Some? {
      var next := pos.value + |sep|;
      JoinPieces(s, sep, next);
      assert Pieces(s, sep, prev)[1..] == Pieces(s, sep, next);
      assert s[prev..] == s[prev..pos.value] + s[pos.value..next] + s[next..];
    }
  }

  lemma {:induction false} JoinChars(s: string)
    ensures Join(Chars(s), []) == s
  {
    if s != [] {
      JoinChars(s[1..]);
      assert Chars(s)[1..] == Chars(s[1..]);
      assert s == [s[0]] + [] + s[1..];
    }
  }

  /** join undoes split, for every separator, the empty one included. */
  lemma JoinUndoesSplit(s: string, sep: string)
    ensures Join(Split(s, sep), sep) == s
  {
    if sep == [] {
      JoinChars(s);
    } else {
      JoinPieces(s, sep, 0);
    }
  }

  /** An empty separator splits into single characters. */
  lemma SplitIntoChars(s: string)
    ensures |Split(s, [])| == |s| && forall k | 0 <= k < |s| :: Split(s, [])[k] == [s[k]]
  {
    assert Split(s, []) == Chars(s);
  }

  lemma SliceOfSlice(s: string, a: nat, b: nat, i: nat, j: nat)
    requires a <= b <= |s| && i <= j <= b - a
    ensures s[a..b][i..j] == s[a + i..a + j]
  {
    forall k | 0 <= k < j - i ensures s[a..b][i..j][k] == s[a + i..a + j][k] {
      assert s[a..b][i + k] == s[a + i + k];
    }
  }

  /** What lies before the first occurrence contains none. */
  lemma PieceIsFree(s: string, sep: string, prev: nat, end: nat)
    requires sep != [] && prev <= end <= |s|
    requires forall i: nat | prev <= i < end :: !OccursAt(s, sep, i)
    ensures !Contains(s[prev..end], sep)
  {
    var piece := s[prev..end];
    forall i: nat ensures !OccursAt(piece, sep, i) {
      if OccursAt(piece, sep, i) {
        SliceOfSlice(s, prev, end, i, i + |sep|);
        assert OccursAt(s, sep, prev + i);
      }
    }
  }

  lemma {:induction false} PiecesAreFree(s: string, sep: string, prev: nat)
    requires sep != [] && prev <= |s|
    ensures forall p <- Pieces(s, sep, prev) :: !Contains(p, sep)
    decreases |s| - prev
  {
    hide Contains;
    match Find(s, sep, prev)
    case None =>
      PieceIsFree(s, sep, prev, |s|);
      assert s[prev..] == s[prev..|s|];
    case Some(pos) =>
      PieceIsFree(s, sep, prev, pos);
      PiecesAreFree(s, sep, pos + |sep|);
  }

  /** No piece contains the separator. */
  lemma SplitIsComplete(s: string, sep: string)
    requires sep != []
    ensures forall p <- Split(s, sep) :: !Contains(p, sep)
  {
    PiecesAreFree(s, sep, 0);
  }

  lemma FindShift(s: string, sep: string, k: nat, from: nat)
    requires k <= |s| && from <= |s| - k
    ensures var a, b := Find(s, sep, k + from), Find(s[k..], sep, from);
            (a.Some? <==> b.Some?) && (a.Some? ==> a.value == b.value + k)
  {
    forall i: nat ensures OccursAt(s, sep, k + i) <==> OccursAt(s[k..], sep, i) {
      if k + i + |sep| <= |s| {
        assert s[k..][i..i + |sep|] == s[k + i..k + i + |sep|];
      }
    }
    var a, b := Find(s, sep, k + from), Find(s[k..], sep, from);
    if a.Some? {
      assert OccursAt(s[k..], sep, a.value - k);
    }
    if b.Some? {
      assert OccursAt(s, sep, k + b.value);
    }
  }

  lemma PiecesShift(s: string, sep: string, k: nat)
    requires sep != [] && k <= |s|
    ensures Pieces(s, sep, k) == Pieces(s[k..], sep, 0)
  {
    PiecesShiftFrom(s, sep, k, 0);
  }

  lemma {:induction false} PiecesShiftFrom(s: string, sep: string, k: nat, from: nat)
    requires sep != [] && k <= |s| && from <= |s| - k
    ensures Pieces(s, sep, k + from) == Pieces(s[k..], sep, from)
    decreases |s| - k - from
  {
    FindShift(s, sep, k, from);
    var b := Find(s[k..], sep, from);
    if b.Some? {
      PiecesShiftFrom(s, sep, k, b.value + |sep|);
      assert s[k..][from..b.value] == s[k + from..k + b.value];
    } else {
      assert s[k..][from..] == s[k + from..];
    }
  }

  /** No piece but the last goes on to a separator that starts inside it, and the last holds none. */
  ghost predicate Leftmost(parts: seq<string>, sep: string) {
    && parts != []
    && (forall k, i: nat | 0 <= k < |parts| - 1 && i < |parts[k]| :: !OccursAt(parts[k] + sep, sep, i))
    && !Contains(parts[|parts| - 1], sep)
  }

  lemma LeftmostRest(parts: seq<string>, sep: string)
    requires |parts| > 1
    ensures Leftmost(parts, sep)
       <==> Leftmost(parts[1..], sep) && forall i: nat | i < |parts[0]| :: !OccursAt(parts[0] + sep, sep, i)
  {
    var rest := parts[1..];
    assert rest[|rest| - 1] == parts[|parts| - 1];
    if Leftmost(parts, sep) {
      forall k, i: nat | 0 <= k < |rest| - 1 && i < |rest[k]| ensures !OccursAt(rest[k] + sep, sep, i) {
        assert rest[k] == parts[k + 1];
      }
    } else if Leftmost(rest, sep) {
      forall k, i: nat | 0 < k < |parts| - 1 && i < |parts[k]| ensures !OccursAt(parts[k] + sep, sep, i) {
        assert rest[k - 1] == parts[k];
      }
    }
  }

  /** A separator behind a piece is the first one exactly when none starts inside the piece. */
  lemma FirstBehind(p: string, sep: string, rest: string)
    requires sep != []
    ensures (forall i: nat | i < |p| :: !OccursAt(p + sep, sep, i)) <==> Find(p + sep + rest, sep, 0) == Some(|p|)
  {
    var s := p + sep + rest;
    assert s[|p|..|p| + |sep|] == sep;
    assert OccursAt(s, sep, |p|);
    forall i: nat | i < |p| ensures OccursAt(p + sep, sep, i) <==> OccursAt(s, sep, i) {
      assert (p + sep)[i..i + |sep|] == s[i..i + |sep|];
    }
  }

  lemma SplitFirst(p: string, sep: string, rest: string)
    requires sep != [] && Find(p + sep + rest, sep, 0) == Some(|p|)
    ensures Split(p + sep + rest, sep) == [p] + Split(rest, sep)
  {
    var s := p + sep + rest;
    PiecesShift(s, sep, |p| + |sep|);
    assert s[|p| + |sep|..] == rest && s[0..|p|] == p;
  }

  lemma {:induction false} LeftmostIsSplit(parts: seq<string>, sep: string)
    requires sep != [] && Leftmost(parts, sep)
    ensures Split(Join(parts, sep), sep) == parts
  {
    var s := Join(parts, sep);
    if |parts| == 1 {
      assert !Contains(s, sep);
      assert Find(s, sep, 0).None?;
      assert Pieces(s, sep, 0) == [s[0..]] && s[0..] == s;
    } else {
      var p, rest := parts[0], Join(parts[1..], sep);
      LeftmostRest(parts, sep);
      LeftmostIsSplit(parts[1..], sep);
      hide Leftmost, Join;
      FirstBehind(p, sep, rest);
      SplitFirst(p, sep, rest);
      assert parts == [p] + parts[1..];
    }
  }

  lemma {:induction false} PiecesAreLeftmost(s: string, sep: string, prev: nat)
    requires sep != [] && prev <= |s|
    ensures Leftmost(Pieces(s, sep, prev), sep)
    decreases |s| - prev
  {
    PiecesAreFree(s, sep, prev);
    var parts := Pieces(s, sep, prev);
    match Find(s, sep, prev)
    case None =>
    case Some(pos) =>
      var p, rest := s[prev..pos], s[pos + |sep|..];
      PiecesAreLeftmost(s, sep, pos + |sep|);
      assert parts[1..] == Pieces(s, sep, pos + |sep|);
      assert s[prev..] == p + sep + rest by { assert s[prev..] == s[prev..pos] + s[pos..pos + |sep|] + rest; }
      FindShift(s, sep, prev, 0);
      FirstBehind(p, sep, rest);
      LeftmostRest(parts, sep);
  }

  /** What split gives is the one way to take s apart at the leftmost separators, again and again. */
  lemma SplitExactly(s: string, sep: string, parts: seq<string>)
    requires sep != []
    ensures parts == Split(s, sep) <==> Join(parts, sep) == s && Leftmost(parts, sep)
  {
    hide Leftmost, Join, Pieces;
    JoinUndoesSplit(s, sep);
    PiecesAreLeftmost(s, sep, 0);
    if Leftmost(parts, sep) {
      LeftmostIsSplit(parts, sep);
    }
  }

  /** Splitting at what replaceAll put in gives the pieces back, when the new text is one character that s lacks:
      replacing changes the separators and nothing else. */
  lemma SplitUndoesJoin(parts: seq<string>, c: char)
    requires parts != [] && forall p <- parts :: c !in p
    ensures Split(Join(parts, [c]), [c]) == parts
  {
    forall k, i: nat | 0 <= k < |parts| - 1 && i < |parts[k]| ensures !OccursAt(parts[k] + [c], [c], i) {
      assert parts[k] in parts && parts[k][i] in parts[k];
      NotAt(parts[k] + [c], c, i);
    }
    var last := parts[|parts| - 1];
    assert last in parts;
    forall i: nat ensures !OccursAt(last, [c], i) {
      NotAt(last, c, i);
    }
    LeftmostIsSplit(parts, [c]);
  }

  lemma NotAt(t: string, c: char, i: nat)
    ensures i >= |t| || t[i] != c ==> !OccursAt(t, [c], i)
  {
    assert i < |t| ==> t[i..i + 1] == [t[i]];
  }
}
