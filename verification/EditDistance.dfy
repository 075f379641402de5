/** The edit distance behind the file-name suggestions: the table computes the length of a shortest edit script, and
    that is a metric. */
module EditDistance {

  function Init<T>(s: seq<T>): seq<T>
    requires s != []
  {
    s[..|s| - 1]
  }

  function Last<T>(s: seq<T>): T
    requires s != []
  {
    s[|s| - 1]
  }

  function Min(a: nat, b: nat): nat {
    if a < b then a else b
  }

  function Cost(x: char, y: char): nat {
    if x == y then 0 else 1
  }

  /** What a cell of the table holds, for the prefixes it stands for. */
  function Distance(a: string, b: string): nat
    decreases |a| + |b|
  {
    if a == [] then |b|
    else if b == [] then |a|
    else Min(Min(Distance(Init(a), b) + 1, Distance(a, Init(b)) + 1),
             Distance(Init(a), Init(b)) + Cost(Last(a), Last(b)))
  }

  /** How a cell follows from its three neighbours. */
  lemma Cell(s1: string, s2: string, i: nat, j: nat)
    requires i <= |s1| && j <= |s2|
    ensures j == 0 ==> Distance(s1[..i], s2[..j]) == i
    ensures i == 0 ==> Distance(s1[..i], s2[..j]) == j
    ensures i > 0 && j > 0 ==>
              Distance(s1[..i], s2[..j]) ==
              Min(Min(Distance(s1[..i - 1], s2[..j]) + 1, Distance(s1[..i], s2[..j - 1]) + 1),
                  Distance(s1[..i - 1], s2[..j - 1]) + Cost(s1[i - 1], s2[j - 1]))
  {
    if i > 0 && j > 0 {
      assert Init(s1[..i]) == s1[..i - 1] && Init(s2[..j]) == s2[..j - 1];
    }
  }

  method LevenshteinDistance(s1: string, s2: string) returns (result: nat)
    ensures result == Distance(s1, s2)
  {
    hide Distance, Min;
    var len1, len2 := |s1|, |s2|;
    var d := new nat[len1 + 1, len2 + 1];
    for i := 0 to len1 + 1
      invariant forall k | 0 <= k < i :: d[k, 0] == Distance(s1[..k], s2[..0])
    {
      Cell(s1, s2, i, 0);
      d[i, 0] := i;
    }
    for j := 0 to len2 + 1
      invariant forall k | 0 <= k <= len1 :: d[k, 0] == Distance(s1[..k], s2[..0])
      invariant forall l | 0 <= l < j :: d[0, l] == Distance(s1[..0], s2[..l])
    {
      Cell(s1, s2, 0, j);
      d[0, j] := j;
    }
    for i := 1 to len1 + 1
      invariant forall k | 0 <= k <= len1 :: d[k, 0] == Distance(s1[..k], s2[..0])
      invariant forall k, l | 0 <= k < i && 0 <= l <= len2 :: d[k, l] == Distance(s1[..k], s2[..l])
    {
      for j := 1 to len2 + 1
        invariant forall k | 0 <= k <= len1 :: d[k, 0] == Distance(s1[..k], s2[..0])
        invariant forall k, l | 0 <= k < i && 0 <= l <= len2 :: d[k, l] == Distance(s1[..k], s2[..l])
        invariant forall l | 0 <= l < j :: d[i, l] == Distance(s1[..i], s2[..l])
      {
        var cost := if s1[i - 1] == s2[j - 1] then 0 else 1;
        Cell(s1, s2, i, j);
        d[i, j] := Min(Min(d[i - 1, j] + 1, d[i, j - 1] + 1), d[i - 1, j - 1] + cost);
      }
    }
    assert s1[..len1] == s1 && s2[..len2] == s2;
    result := d[len1, len2];
  }

  // ---------- a metric ----------

  lemma {:induction false} Symmetric(a: string, b: string)
    ensures Distance(a, b) == Distance(b, a)
    decreases |a| + |b|
  {
    if a != [] && b != [] {
      Symmetric(Init(a), b);
      Symmetric(a, Init(b));
      Symmetric(Init(a), Init(b));
    }
  }

  lemma {:induction false} ZeroIffEqual(a: string, b: string)
    ensures Distance(a, b) == 0 <==> a == b
    decreases |a| + |b|
  {
    if a != [] && b != [] {
      ZeroIffEqual(Init(a), Init(b));
      assert a == Init(a) + [Last(a)] && b == Init(b) + [Last(b)];
    }
  }

  lemma {:induction false} LengthBounds(a: string, b: string)
    ensures |a| <= |b| + Distance(a, b) && |b| <= |a| + Distance(a, b) && Distance(a, b) <= |a| + |b|
    decreases |a| + |b|
  {
    if a != [] && b != [] {
      LengthBounds(Init(a), b);
      LengthBounds(a, Init(b));
      LengthBounds(Init(a), Init(b));
    }
  }

  lemma {:induction false} Triangle(a: string, b: string, c: string)
    ensures Distance(a, c) <= Distance(a, b) + Distance(b, c)
    decreases |a| + |b| + |c|
  {
    if a == [] || b == [] || c == [] {
      LengthBounds(a, b);
      LengthBounds(b, c);
      LengthBounds(a, c);
    } else {
      Triangle(Init(a), b, c);
      Triangle(a, b, Init(c));
      Triangle(a, Init(b), c);
      Triangle(Init(a), Init(b), c);
      Triangle(a, Init(b), Init(c));
      Triangle(Init(a), Init(b), Init(c));
    }
  }

  // ---------- shortest edit scripts ----------

  datatype Edit = Insert(at: nat, c: char) | Delete(at: nat) | Substitute(at: nat, c: char)

  predicate Applies(e: Edit, s: string) {
    if e.Insert? then e.at <= |s| else e.at < |s|
  }

  function Apply(e: Edit, s: string): string
    requires Applies(e, s)
  {
    match e
    case Insert(at, c) => s[..at] + [c] + s[at..]
    case Delete(at) => s[..at] + s[at + 1..]
    case Substitute(at, c) => s[at := c]
  }

  /** The edits, made one after the other on s, give t. */
  predicate Transforms(script: seq<Edit>, s: string, t: string) {
    if script == [] then s == t
    else Applies(script[0], s) && Transforms(script[1..], Apply(script[0], s), t)
  }

  lemma {:induction false} CommonSuffix(a: string, b: string, s: string)
    ensures Distance(a + s, b + s) <= Distance(a, b)
  {
    if s == [] {
      assert a + s == a && b + s == b;
    } else {
      CommonSuffix(a, b, Init(s));
      assert Init(a + s) == a + Init(s) && Init(b + s) == b + Init(s) && Last(a + s) == Last(b + s);
    }
  }

  /** Replacing at most one character by at most one, inside common text. */
  lemma OneChange(p: string, u: string, v: string, q: string)
    requires |u| <= 1 && |v| <= 1
    ensures Distance(p + u + q, p + v + q) <= 1
  {
    CommonSuffix(p + u, p + v, q);
    AtTheEnd(p, u, v);
  }

  lemma OneLonger(a: string, b: string)
    requires b != []
    ensures Distance(a, b) <= Distance(a, Init(b)) + 1 && Distance(b, a) <= Distance(Init(b), a) + 1
    ensures a != [] ==> Distance(a, b) <= Distance(Init(a), Init(b)) + 1
  {
  }

  lemma AtTheEnd(p: string, u: string, v: string)
    requires |u| <= 1 && |v| <= 1
    ensures Distance(p + u, p + v) <= 1
  {
    ZeroIffEqual(p, p);
    ZeroIffEqual(p + u, p + v);
    hide Distance;
    assert u == [] ==> p + u == p;
    assert v == [] ==> p + v == p;
    if v != [] {
      assert Init(p + v) == p;
      assert u != [] ==> Init(p + u) == p;
      OneLonger(p + u, p + v);
    } else if u != [] {
      assert Init(p + u) == p;
      OneLonger(p + v, p + u);
    }
  }

  lemma OneEdit(e: Edit, s: string)
    requires Applies(e, s)
    ensures Distance(s, Apply(e, s)) <= 1
  {
    hide Distance;
    var p := s[..e.at];
    match e
    case Insert(at, c) =>
      OneChange(p, [], [c], s[at..]);
      assert s == p + [] + s[at..];
    case Delete(at) =>
      OneChange(p, [s[at]], [], s[at + 1..]);
      assert s == p + [s[at]] + s[at + 1..] && Apply(e, s) == p + [] + s[at + 1..];
    case Substitute(at, c) =>
      OneChange(p, [s[at]], [c], s[at + 1..]);
      assert s == p + [s[at]] + s[at + 1..] && Apply(e, s) == p + [c] + s[at + 1..];
  }

  /** No script is shorter than the distance. */
  lemma {:induction false} NoShorterScript(script: seq<Edit>, s: string, t: string)
    requires Transforms(script, s, t)
    ensures Distance(s, t) <= |script|
    decreases |script|
  {
    if script == [] {
      ZeroIffEqual(s, t);
    } else {
      var s1 := Apply(script[0], s);
      NoShorterScript(script[1..], s1, t);
      OneEdit(script[0], s);
      Triangle(s, s1, t);
    }
  }

  lemma {:induction false} ScriptThenEdit(script: seq<Edit>, s: string, t: string, e: Edit)
    requires Transforms(script, s, t) && Applies(e, t)
    ensures Transforms(script + [e], s, Apply(e, t))
    decreases |script|
  {
    if script != [] {
      ScriptThenEdit(script[1..], Apply(script[0], s), t, e);
      assert (script + [e])[1..] == script[1..] + [e];
    }
  }

  lemma {:induction false} ScriptBeforeSuffix(script: seq<Edit>, s: string, t: string, c: char)
    requires Transforms(script, s, t)
    ensures Transforms(script, s + [c], t + [c])
    decreases |script|
  {
    if script != [] {
      ScriptBeforeSuffix(script[1..], Apply(script[0], s), t, c);
      assert Apply(script[0], s + [c]) == Apply(script[0], s) + [c];
    }
  }

  lemma AppendLast(script: seq<Edit>, a: string, b: string)
    requires b != [] && Transforms(script, a, Init(b))
    ensures Transforms(script + [Insert(|b| - 1, Last(b))], a, b)
  {
    var e := Insert(|b| - 1, Last(b));
    ScriptThenEdit(script, a, Init(b), e);
    assert Apply(e, Init(b)) == b;
  }

  lemma DropLast(script: seq<Edit>, a: string, b: string)
    requires a != [] && Transforms(script, Init(a), b)
    ensures Transforms([Delete(|a| - 1)] + script, a, b)
  {
    var e := Delete(|a| - 1);
    assert Apply(e, a) == Init(a) && ([e] + script)[1..] == script;
  }

  lemma ChangeLast(script: seq<Edit>, a: string, b: string)
    requires a != [] && b != [] && Transforms(script, Init(a), Init(b))
    ensures Last(a) == Last(b) ==> Transforms(script, a, b)
    ensures Transforms([Substitute(|a| - 1, Last(b))] + script, a, b)
  {
    ScriptBeforeSuffix(script, Init(a), Init(b), Last(b));
    assert Init(b) + [Last(b)] == b && Init(a) + [Last(a)] == a;
    var e := Substitute(|a| - 1, Last(b));
    assert Apply(e, a) == Init(a) + [Last(b)] && ([e] + script)[1..] == script;
  }

  lemma {:induction false} Insertions(t: string) returns (script: seq<Edit>)
    ensures |script| == |t| && Transforms(script, [], t)
  {
    script := [];
    if t != [] {
      script := Insertions(Init(t));
      AppendLast(script, [], t);
      script := script + [Insert(|t| - 1, Last(t))];
    }
  }

  /** Some script is as short as the distance. */
  lemma {:induction false} ShortestScript(a: string, b: string) returns (script: seq<Edit>)
    ensures |script| == Distance(a, b) && Transforms(script, a, b)
    decreases |a| + |b|
  {
    hide Transforms;
    if a == [] {
      script := Insertions(b);
    } else if b == [] || Distance(a, b) == Distance(Init(a), b) + 1 {
      script := ShortestScript(Init(a), b);
      DropLast(script, a, b);
      script := [Delete(|a| - 1)] + script;
    } else if Distance(a, b) == Distance(a, Init(b)) + 1 {
      script := ShortestScript(a, Init(b));
      AppendLast(script, a, b);
      script := script + [Insert(|b| - 1, Last(b))];
    } else {
      script := ShortestScript(Init(a), Init(b));
      ChangeLast(script, a, b);
      if Last(a) != Last(b) {
        script := [Substitute(|a| - 1, Last(b))] + script;
      }
    }
  }

  /** The table's answer is the least number of insertions, deletions and substitutions that turn a into b. */
  lemma DistanceIsShortest(a: string, b: string)
    ensures exists script :: |script| == Distance(a, b) && Transforms(script, a, b)
    ensures forall script | Transforms(script, a, b) :: Distance(a, b) <= |script|
  {
    var script := ShortestScript(a, b);
    forall other | Transforms(other, a, b) ensures Distance(a, b) <= |other| {
      NoShorterScript(other, a, b);
    }
  }
}
