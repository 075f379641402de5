/** Indentation: the lexer's stack of columns, and the bracketing it must give. */
module Layout {
  import opened Wrappers

  datatype Token = CodeToken(id: nat) | NewlineToken | IndentToken | DedentToken | EndToken

  /** A line of code: its leading blanks and what stands after them. */
  datatype Line = Line(lead: string, id: nat)

  /** A space counts one column, a tab four. */
  function Column(lead: string): nat {
    if lead == [] then 0 else Column(lead[..|lead| - 1]) + if lead[|lead| - 1] == '\t' then 4 else 1
  }

  ghost predicate Increasing(stack: seq<nat>) {
    stack != [] && stack[0] == 0 && forall i, j | 0 <= i < j < |stack| :: stack[i] < stack[j]
  }

  function Top(stack: seq<nat>): nat
    requires stack != []
  {
    stack[|stack| - 1]
  }

  function Dedents(n: nat): seq<Token> {
    seq(n, _ => DedentToken)
  }

  /** The stack without the columns beyond n. */
  function Keep(stack: seq<nat>, n: nat): seq<nat> {
    if stack == [] || Top(stack) <= n then stack else Keep(stack[..|stack| - 1], n)
  }

  datatype Step = Step(stack: seq<nat>, tokens: seq<Token>)

  /** What a line at column n does to the stack, and the tokens it costs. */
  function Shift(stack: seq<nat>, n: nat): Option<Step>
    requires stack != []
  {
    if n > Top(stack) then Some(Step(stack + [n], [IndentToken]))
    else
      var kept := Keep(stack, n);
      if kept == [] || Top(kept) != n || |kept| > |stack| then None
      else Some(Step(kept, Dedents(|stack| - |kept|)))
  }

  /** One more line, closed by its newline. */
  function Extend(before: Option<Step>, line: Line): (r: Option<Step>)
    requires before.Some? ==> before.value.stack != []
    ensures r.Some? ==> r.value.stack != []
  {
    if before.None? then None
    else
      var shift := Shift(before.value.stack, Column(line.lead));
      if shift.None? then None
      else Some(Step(shift.value.stack,
                     before.value.tokens + shift.value.tokens + [CodeToken(line.id), NewlineToken]))
  }

  /** The stack and the tokens after the given lines. */
  function Process(stack: seq<nat>, lines: seq<Line>): (r: Option<Step>)
    requires stack != []
    ensures r.Some? ==> r.value.stack != []
  {
    if lines == [] then Some(Step(stack, []))
    else Extend(Process(stack, lines[..|lines| - 1]), lines[|lines| - 1])
  }

  /** The whole token stream of a file whose first line stands at column 0. */
  function Tokens(lines: seq<Line>): Option<seq<Token>> {
    if lines == [] then Some([NewlineToken, EndToken])
    else
      match Process([0], lines)
      case None => None
      case Some(r) => Some(r.tokens + Dedents(|r.stack| - 1) + [EndToken])
  }

  // ---------- the stack ----------

  lemma {:induction false} KeepIsPrefix(stack: seq<nat>, n: nat)
    requires Increasing(stack)
    ensures var k := Keep(stack, n);
            k != [] && |k| <= |stack| && k == stack[..|k|] && Increasing(k)
            && (forall i | |k| <= i < |stack| :: stack[i] > n) && Top(k) <= n
  {
    if Top(stack) > n {
      KeepIsPrefix(stack[..|stack| - 1], n);
    }
  }

  /** A line is refused exactly when it falls back to a column that is not on the stack. */
  lemma ErrorExactly(stack: seq<nat>, n: nat)
    requires Increasing(stack)
    ensures Shift(stack, n).None? <==> n < Top(stack) && n !in stack
    ensures Shift(stack, n).Some? ==> Increasing(Shift(stack, n).value.stack) && Top(Shift(stack, n).value.stack) == n
  {
    KeepIsPrefix(stack, n);
    var k := Keep(stack, n);
    if n in stack {
      var i :| 0 <= i < |stack| && stack[i] == n;
      assert i < |k|;
      assert Top(k) == n;
    }
  }

  function Balance(tokens: seq<Token>): int {
    if tokens == [] then 0
    else Balance(tokens[..|tokens| - 1])
         + (var t := tokens[|tokens| - 1]; if t.IndentToken? then 1 else if t.DedentToken? then -1 else 0)
  }

  lemma {:induction false} BalanceConcat(a: seq<Token>, b: seq<Token>)
    ensures Balance(a + b) == Balance(a) + Balance(b)
  {
    if b == [] {
      assert a + b == a;
    } else {
      BalanceConcat(a, b[..|b| - 1]);
      assert (a + b)[..|a + b| - 1] == a + b[..|b| - 1];
    }
  }

  lemma {:induction false} BalanceDedents(n: nat)
    ensures Balance(Dedents(n)) == 0 - n
  {
    if n > 0 {
      BalanceDedents(n - 1);
      assert Dedents(n)[..n - 1] == Dedents(n - 1);
    }
  }

  lemma BalanceLine(id: nat)
    ensures Balance([CodeToken(id), NewlineToken]) == 0 && Balance([IndentToken]) == 1 && Balance([EndToken]) == 0
  {
    assert [CodeToken(id), NewlineToken][..1] == [CodeToken(id)];
    assert [CodeToken(id)][..0] == [];
    assert Balance([CodeToken(id)]) == 0;
  }

  lemma ShiftBalance(stack: seq<nat>, n: nat)
    requires Increasing(stack) && Shift(stack, n).Some?
    ensures Balance(Shift(stack, n).value.tokens) == |Shift(stack, n).value.stack| - |stack|
  {
    KeepIsPrefix(stack, n);
    BalanceLine(0);
    if n <= Top(stack) {
      BalanceDedents(|stack| - |Keep(stack, n)|);
    }
  }

  /** For any lines the stack stays strictly increasing from 0, and INDENTs less DEDENTs is its height less one. */
  lemma {:induction false} StackIsBalance(lines: seq<Line>)
    requires Process([0], lines).Some?
    ensures var r := Process([0], lines).value;
            Increasing(r.stack) && Balance(r.tokens) == |r.stack| - 1
  {
    if lines != [] {
      var line := lines[|lines| - 1];
      StackIsBalance(lines[..|lines| - 1]);
      var before := Process([0], lines[..|lines| - 1]).value;
      ErrorExactly(before.stack, Column(line.lead));
      ShiftBalance(before.stack, Column(line.lead));
      BalanceLine(line.id);
      BalanceConcat(before.tokens, Shift(before.stack, Column(line.lead)).value.tokens);
      BalanceConcat(before.tokens + Shift(before.stack, Column(line.lead)).value.tokens,
                    [CodeToken(line.id), NewlineToken]);
    }
  }

  /** At the end of the file every INDENT has its DEDENT. */
  lemma FileBalances(lines: seq<Line>)
    requires Tokens(lines).Some?
    ensures Balance(Tokens(lines).value) == 0
  {
    if lines == [] {
      assert [NewlineToken, EndToken][..1] == [NewlineToken];
    } else {
      StackIsBalance(lines);
      var r := Process([0], lines).value;
      BalanceDedents(|r.stack| - 1);
      BalanceLine(0);
      BalanceConcat(r.tokens, Dedents(|r.stack| - 1));
      BalanceConcat(r.tokens + Dedents(|r.stack| - 1), [EndToken]);
    }
  }

  // ---------- block trees ----------

  /** The blocks that follow one another at one column; the children of a node stand step + 1 columns further in. */
  datatype Forest = Nil | Node(id: nat, step: nat, children: Forest, next: Forest)

  function Blanks(n: nat): string {
    seq(n, _ => ' ')
  }

  function Print(f: Forest, column: nat): seq<Line> {
    match f
    case Nil => []
    case Node(id, step, children, next) =>
      [Line(Blanks(column), id)] + Print(children, column + step + 1) + Print(next, column)
  }

  /** The bracketing of a forest. */
  function Bracketed(f: Forest): seq<Token> {
    match f
    case Nil => []
    case Node(id, _, children, next) =>
      [CodeToken(id), NewlineToken]
      + (if children.Nil? then [] else [IndentToken] + Bracketed(children) + [DedentToken])
      + Bracketed(next)
  }

  /** The columns still open after the last line of a forest, deeper than its own. */
  function Open(f: Forest, column: nat): seq<nat> {
    match f
    case Nil => []
    case Node(_, step, children, next) =>
      if next.Node? then Open(next, column)
      else if children.Nil? then []
      else [column + step + 1] + Open(children, column + step + 1)
  }

  lemma {:induction false} BlanksColumn(n: nat)
    ensures Column(Blanks(n)) == n
  {
    if n > 0 {
      BlanksColumn(n - 1);
      assert Blanks(n)[..n - 1] == Blanks(n - 1);
    }
  }

  function Prefixed(tokens: seq<Token>, step: Option<Step>): Option<Step> {
    if step.None? then None else Some(Step(step.value.stack, tokens + step.value.tokens))
  }

  lemma ExtendPrefixed(tokens: seq<Token>, step: Option<Step>, line: Line)
    requires step.Some? ==> step.value.stack != []
    ensures Extend(Prefixed(tokens, step), line) == Prefixed(tokens, Extend(step, line))
  {
    if step.Some? {
      var shift := Shift(step.value.stack, Column(line.lead));
      if shift.Some? {
        var tail := [CodeToken(line.id), NewlineToken];
        assert tokens + step.value.tokens + shift.value.tokens + tail
            == tokens + (step.value.tokens + shift.value.tokens + tail);
      }
    }
  }

  lemma {:induction false} ProcessConcat(stack: seq<nat>, a: seq<Line>, b: seq<Line>)
    requires stack != [] && Process(stack, a).Some?
    ensures var r := Process(stack, a).value;
            Process(stack, a + b) == Prefixed(r.tokens, Process(r.stack, b))
  {
    var r := Process(stack, a).value;
    if b == [] {
      assert a + b == a && r.tokens + [] == r.tokens;
    } else {
      var last := |b| - 1;
      ProcessConcat(stack, a, b[..last]);
      assert (a + b)[..|a + b| - 1] == a + b[..last] && (a + b)[|a + b| - 1] == b[last];
      ExtendPrefixed(r.tokens, Process(r.stack, b[..last]), b[last]);
    }
  }

  lemma OneLine(stack: seq<nat>, column: nat, id: nat)
    requires stack != []
    ensures var shift := Shift(stack, column);
            Process(stack, [Line(Blanks(column), id)]) ==
              if shift.None? then None
              else Some(Step(shift.value.stack, shift.value.tokens + [CodeToken(id), NewlineToken]))
  {
    BlanksColumn(column);
    var line := Line(Blanks(column), id);
    assert [line][..0] == [];
    assert Process(stack, [line]) == Extend(Some(Step(stack, [])), line);
    if Shift(stack, column).Some? {
      var t := Shift(stack, column).value.tokens;
      assert [] + t == t;
    }
  }

  lemma {:induction false} KeepBelow(stack: seq<nat>, more: seq<nat>)
    requires stack != [] && Increasing(stack + more)
    ensures Keep(stack + more, Top(stack)) == stack
  {
    if more == [] {
      assert stack + more == stack;
    } else {
      var all := stack + more;
      assert all[..|all| - 1] == stack + more[..|more| - 1];
      assert Top(all) > all[|stack| - 1] == Top(stack);
      KeepBelow(stack, more[..|more| - 1]);
    }
  }

  /** A line at the column of an outer block closes everything opened inside. */
  lemma BackTo(stack: seq<nat>, more: seq<nat>)
    requires stack != [] && Increasing(stack + more)
    ensures Shift(stack + more, Top(stack)) == Some(Step(stack, Dedents(|more|)))
  {
    KeepBelow(stack, more);
    var all := stack + more;
    assert Top(all) >= all[|stack| - 1] == Top(stack);
  }

  /** A first line that shifts the stack leaves the rest of its block as if the stack had been so before. */
  lemma FirstLine(stack: seq<nat>, n: nat, id: nat, rest: seq<Line>, shifted: Step)
    requires stack != [] && shifted.stack != [] && Shift(stack, n) == Some(shifted)
    requires Shift(shifted.stack, n) == Some(Step(shifted.stack, []))
    ensures var lines := [Line(Blanks(n), id)] + rest;
            Process(stack, lines) == Prefixed(shifted.tokens, Process(shifted.stack, lines))
  {
    var line := [Line(Blanks(n), id)];
    OneLine(stack, n, id);
    OneLine(shifted.stack, n, id);
    ProcessConcat(stack, line, rest);
    ProcessConcat(shifted.stack, line, rest);
    var tail := [CodeToken(id), NewlineToken];
    hide Process, Shift, Blanks;
    var r := Process(shifted.stack, rest);
    assert [] + tail == tail;
    if r.Some? {
      Regroup1(shifted.tokens, tail, r.value.tokens);
    }
  }

  lemma OnTop(stack: seq<nat>, n: nat)
    requires stack != [] && Top(stack) == n
    ensures Shift(stack, n) == Some(Step(stack, []))
  {
    assert Dedents(0) == [];
  }

  lemma {:induction false} OpenRises(f: Forest, stack: seq<nat>, column: nat)
    requires Increasing(stack) && Top(stack) == column
    ensures Increasing(stack + Open(f, column))
    decreases f
  {
    match f
    case Nil => assert stack + [] == stack;
    case Node(_, step, children, next) =>
      if next.Node? {
        OpenRises(next, stack, column);
      } else if children.Nil? {
        assert stack + [] == stack;
      } else {
        var c := column + step + 1;
        OpenRises(children, stack + [c], c);
        assert stack + ([c] + Open(children, c)) == stack + [c] + Open(children, c);
      }
  }

  /** From a stack with its column on top a forest is bracketed, but for the DEDENTs its last line leaves due. */
  ghost predicate Lexes(lines: seq<Line>, stack: seq<nat>, open: seq<nat>, tokens: seq<Token>)
    requires stack != []
  {
    var r := Process(stack, lines);
    r.Some? && r.value.stack == stack + open && r.value.tokens + Dedents(|open|) == tokens
  }

  /** A node alone, with its children. */
  function NodeLines(id: nat, step: nat, children: Forest, column: nat): seq<Line> {
    [Line(Blanks(column), id)] + Print(children, column + step + 1)
  }

  function NodeOpen(step: nat, children: Forest, column: nat): seq<nat> {
    if children.Nil? then [] else [column + step + 1] + Open(children, column + step + 1)
  }

  function NodeTokens(id: nat, children: Forest): seq<Token> {
    [CodeToken(id), NewlineToken] + if children.Nil? then [] else [IndentToken] + Bracketed(children) + [DedentToken]
  }

  lemma Regroup1<T>(a: seq<T>, b: seq<T>, c: seq<T>)
    ensures a + b + c == a + (b + c)
  {
  }

  lemma Regroup2<T>(a: seq<T>, b: seq<T>, c: seq<T>, d: seq<T>, e: seq<T>)
    ensures a + (b + c) + (d + e) == a + (b + (c + d) + e)
  {
  }

  lemma Regroup3<T>(a: seq<T>, b: seq<T>, c: seq<T>, d: seq<T>)
    ensures a + (b + c) + d == (a + b) + (c + d)
  {
  }

  lemma LeafLexes(id: nat, column: nat, stack: seq<nat>)
    requires Increasing(stack) && Top(stack) == column
    ensures Process(stack, [Line(Blanks(column), id)]) == Some(Step(stack, [CodeToken(id), NewlineToken]))
  {
    OnTop(stack, column);
    OneLine(stack, column, id);
    assert [] + [CodeToken(id), NewlineToken] == [CodeToken(id), NewlineToken];
  }

  lemma InnerLexes(children: Forest, c: nat, stack: seq<nat>)
    requires stack != [] && Top(stack) < c && children.Node?
    ensures Process(stack, Print(children, c)) == Prefixed([IndentToken], Process(stack + [c], Print(children, c)))
  {
    OnTop(stack + [c], c);
    assert Print(children, c) == [Line(Blanks(c), children.id)] + Print(children, c)[1..];
    FirstLine(stack, c, children.id, Print(children, c)[1..], Step(stack + [c], [IndentToken]));
  }

  lemma BlockLexes(id: nat, step: nat, children: Forest, column: nat, stack: seq<nat>)
    requires Increasing(stack) && Top(stack) == column && children.Node?
    requires var c := column + step + 1;
             Lexes(Print(children, c), stack + [c], Open(children, c), Bracketed(children))
    ensures Lexes(NodeLines(id, step, children, column), stack, NodeOpen(step, children, column),
                  NodeTokens(id, children))
  {
    hide Process, Print, Bracketed, Open, Increasing, Shift, Blanks;
    var c := column + step + 1;
    var line, head := [Line(Blanks(column), id)], [CodeToken(id), NewlineToken];
    LeafLexes(id, column, stack);
    ProcessConcat(stack, line, Print(children, c));
    InnerLexes(children, c, stack);
    var inner, open := Process(stack + [c], Print(children, c)).value, Open(children, c);
    Regroup1(stack, [c], open);
    Regroup2(head, [IndentToken], inner.tokens, Dedents(|open|), [DedentToken]);
  }

  lemma NodeLexes(id: nat, step: nat, children: Forest, column: nat, stack: seq<nat>)
    requires Increasing(stack) && Top(stack) == column
    requires var c := column + step + 1;
             Lexes(Print(children, c), stack + [c], Open(children, c), Bracketed(children))
    ensures Lexes(NodeLines(id, step, children, column), stack, NodeOpen(step, children, column),
                  NodeTokens(id, children))
  {
    if children.Node? {
      BlockLexes(id, step, children, column, stack);
    } else {
      LeafLexes(id, column, stack);
      var line, head := [Line(Blanks(column), id)], [CodeToken(id), NewlineToken];
      assert line + [] == line && stack + [] == stack && head + [] == head && Dedents(0) == [];
    }
  }

  /** A node followed by its siblings: the first of them pays the DEDENTs the node left due. */
  lemma ThenLexes(a: seq<Line>, openA: seq<nat>, tokensA: seq<Token>, next: Forest, column: nat, stack: seq<nat>)
    requires Increasing(stack) && Top(stack) == column && Increasing(stack + openA) && next.Node?
    requires Lexes(a, stack, openA, tokensA) && Lexes(Print(next, column), stack, Open(next, column), Bracketed(next))
    ensures Lexes(a + Print(next, column), stack, Open(next, column), tokensA + Bracketed(next))
  {
    var b := Print(next, column);
    ProcessConcat(stack, a, b);
    BackTo(stack, openA);
    OnTop(stack, column);
    assert b == [Line(Blanks(column), next.id)] + b[1..];
    hide Process, Print, Bracketed, Open, Increasing, Shift, Blanks;
    FirstLine(stack + openA, column, next.id, b[1..], Step(stack, Dedents(|openA|)));
    var ra, rb := Process(stack, a).value, Process(stack, b).value;
    Regroup3(ra.tokens, Dedents(|openA|), rb.tokens, Dedents(|Open(next, column)|));
  }

  lemma {:induction false} ForestLexes(f: Forest, column: nat, stack: seq<nat>)
    requires Increasing(stack) && Top(stack) == column
    ensures Lexes(Print(f, column), stack, Open(f, column), Bracketed(f))
    decreases f
  {
    match f
    case Nil => assert stack + [] == stack && Dedents(0) == [];
    case Node(id, step, children, next) =>
      var c := column + step + 1;
      ForestLexes(children, c, stack + [c]);
      NodeLexes(id, step, children, column, stack);
      NodeParts(f, column);
      if next.Node? {
        OpenRises(Node(id, step, children, Nil), stack, column);
        ForestLexes(next, column, stack);
        hide Print, Bracketed, NodeLines, NodeOpen, NodeTokens, Increasing, Lexes;
        ThenLexes(NodeLines(id, step, children, column), NodeOpen(step, children, column), NodeTokens(id, children),
          next, column, stack);
      }
  }

  lemma NodeParts(f: Forest, column: nat)
    requires f.Node?
    ensures Print(f, column) == NodeLines(f.id, f.step, f.children, column) + Print(f.next, column)
    ensures Bracketed(f) == NodeTokens(f.id, f.children) + Bracketed(f.next)
    ensures f.next.Nil? ==> Print(f, column) == NodeLines(f.id, f.step, f.children, column)
                            && Bracketed(f) == NodeTokens(f.id, f.children)
    ensures Open(f, column) == if f.next.Node? then Open(f.next, column) else NodeOpen(f.step, f.children, column)
    ensures Open(Node(f.id, f.step, f.children, Nil), column) == NodeOpen(f.step, f.children, column)
  {
  }

  lemma BlanksThenLex(f: Forest)
    requires f.Node?
    ensures Tokens(Print(f, 0)) == Some(Bracketed(f) + [EndToken])
  {
    ForestLexes(f, 0, [0]);
    var r := Process([0], Print(f, 0)).value;
    assert |r.stack| - 1 == |Open(f, 0)|;
    assert Print(f, 0) != [];
  }

  // ---------- tabs ----------

  /** A lead with four blanks in place of each tab. */
  function Expanded(lead: string): string {
    if lead == [] then []
    else (if lead[0] == '\t' then "    " else [lead[0]]) + Expanded(lead[1..])
  }

  lemma {:induction false} ColumnConcat(a: string, b: string)
    ensures Column(a + b) == Column(a) + Column(b)
  {
    if b == [] {
      assert a + b == a;
    } else {
      ColumnConcat(a, b[..|b| - 1]);
      assert (a + b)[..|a + b| - 1] == a + b[..|b| - 1];
    }
  }

  /** A tab is worth four blanks wherever it stands. */
  lemma TabIsFourBlanks(a: string, b: string)
    ensures Column(a + "\t" + b) == Column(a + "    " + b) == Column(a) + 4 + Column(b)
  {
    BlanksColumn(4);
    assert Blanks(4) == "    ";
    assert Column("\t") == 4 by { assert "\t"[..0] == []; }
    ColumnConcat(a + "\t", b);
    ColumnConcat(a, "\t");
    ColumnConcat(a + "    ", b);
    ColumnConcat(a, "    ");
  }

  lemma {:induction false} ExpandedColumn(lead: string)
    ensures Column(Expanded(lead)) == Column(lead)
  {
    if lead != [] {
      ExpandedColumn(lead[1..]);
      ColumnConcat(if lead[0] == '\t' then "    " else [lead[0]], Expanded(lead[1..]));
      assert lead == [lead[0]] + lead[1..];
      ColumnConcat([lead[0]], lead[1..]);
      TabIsFourBlanks([], []);
      assert [] + "\t" + [] == "\t" && [] + "    " + [] == "    ";
    }
  }

  /** The same lines, some of their blanks written as tabs. */
  ghost predicate SameButForTabs(a: seq<Line>, b: seq<Line>) {
    |a| == |b| && forall k | 0 <= k < |a| :: a[k].id == b[k].id && Expanded(a[k].lead) == Expanded(b[k].lead)
  }

  lemma {:induction false} SameProcess(stack: seq<nat>, a: seq<Line>, b: seq<Line>)
    requires stack != [] && SameButForTabs(a, b)
    ensures Process(stack, a) == Process(stack, b)
  {
    if a != [] {
      var last := |a| - 1;
      SameProcess(stack, a[..last], b[..last]);
      ExpandedColumn(a[last].lead);
      ExpandedColumn(b[last].lead);
      hide Column, Expanded, Shift;
    }
  }

  lemma {:induction false} BlanksExpanded(n: nat)
    ensures Expanded(Blanks(n)) == Blanks(n)
  {
    if n > 0 {
      BlanksExpanded(n - 1);
      assert Blanks(n)[1..] == Blanks(n - 1);
      assert Blanks(n) == [' '] + Blanks(n - 1);
    }
  }

  /** Any block tree, one line per node with deeper columns for children, lexes to exactly its bracketing, however its
      columns are made up of blanks and of tabs for four blanks. */
  lemma PrintThenLex(f: Forest, lines: seq<Line>)
    requires f.Node? && |lines| == |Print(f, 0)|
    requires forall k | 0 <= k < |lines| ::
               lines[k].id == Print(f, 0)[k].id && Expanded(lines[k].lead) == Print(f, 0)[k].lead
    ensures Tokens(lines) == Some(Bracketed(f) + [EndToken])
  {
    BlanksThenLex(f);
    forall k | 0 <= k < |lines| ensures Expanded(Print(f, 0)[k].lead) == Print(f, 0)[k].lead {
      PrintsBlanks(f, 0, k);
      BlanksExpanded(|Print(f, 0)[k].lead|);
    }
    SameProcess([0], lines, Print(f, 0));
    hide Process, Print, Bracketed, Expanded;
  }

  lemma {:induction false} PrintsBlanks(f: Forest, column: nat, k: nat)
    requires k < |Print(f, column)|
    ensures Print(f, column)[k].lead == Blanks(|Print(f, column)[k].lead|)
    decreases f
  {
    var c := column + f.step + 1;
    var inner := Print(f.children, c);
    if k > 0 {
      if k <= |inner| {
        PrintsBlanks(f.children, c, k - 1);
        assert Print(f, column)[k] == inner[k - 1];
      } else {
        PrintsBlanks(f.next, column, k - 1 - |inner|);
        assert Print(f, column)[k] == Print(f.next, column)[k - 1 - |inner|];
      }
    }
  }

  // ---------- the lexer, with its stack ----------

  class Lexer {
    var indentStack: seq<nat>
    var out: seq<Token>

    constructor ()
      ensures indentStack == [0] && out == []
    {
      indentStack, out := [0], [];
    }

    /** handle_newline, once the column of the next line of code is known. False is an indentation error. */
    method HandleIndent(newIndent: nat) returns (ok: bool)
      requires Increasing(indentStack)
      modifies this
      ensures ok <==> Shift(old(indentStack), newIndent).Some?
      ensures ok ==> var r := Shift(old(indentStack), newIndent).value;
                     indentStack == r.stack && out == old(out) + r.tokens
    {
      KeepIsPrefix(indentStack, newIndent);
      if newIndent > Top(indentStack) {
        indentStack := indentStack + [newIndent];
        out := out + [IndentToken];
        return true;
      }
      while newIndent < Top(indentStack)
        invariant indentStack != [] && |indentStack| <= |old(indentStack)|
        invariant Increasing(indentStack) && Keep(indentStack, newIndent) == Keep(old(indentStack), newIndent)
        invariant out == old(out) + Dedents(|old(indentStack)| - |indentStack|)
        decreases |indentStack|
      {
        indentStack := indentStack[..|indentStack| - 1];
        out := out + [DedentToken];
      }
      ok := newIndent == Top(indentStack);
    }

    method EmitRemainingDedents()
      requires Increasing(indentStack)
      modifies this
      ensures indentStack == [0] && out == old(out) + Dedents(|old(indentStack)| - 1)
    {
      while |indentStack| > 1
        invariant Increasing(indentStack) && |indentStack| <= |old(indentStack)|
        invariant out == old(out) + Dedents(|old(indentStack)| - |indentStack|)
        decreases |indentStack|
      {
        indentStack := indentStack[..|indentStack| - 1];
        out := out + [DedentToken];
      }
      assert indentStack == [0];
    }

    /** tokenize: a newline before every line but the first, one more at the end, then the DEDENTs still due. */
    method Tokenize(lines: seq<Line>) returns (ok: bool)
      requires indentStack == [0] && out == [] && (lines != [] ==> Column(lines[0].lead) == 0)
      modifies this
      ensures ok <==> Tokens(lines).Some?
      ensures ok ==> out == Tokens(lines).value
    {
      var k := 0;
      while k < |lines|
        invariant k <= |lines| && Increasing(indentStack)
        invariant k == 0 ==> indentStack == [0] && out == []
        invariant k > 0 ==> Process([0], lines[..k]) == Some(Step(indentStack, out + [NewlineToken]))
        decreases |lines| - k
      {
        ghost var tail := [CodeToken(lines[k].id), NewlineToken];
        if k == 0 {
          StartsAt(lines);
        } else {
          out := out + [NewlineToken];
          ErrorExactly(indentStack, Column(lines[k].lead));
          ProcessNext(lines, k, Step(indentStack, out));
          var fine := HandleIndent(Column(lines[k].lead));
          if !fine {
            RestFails(lines, k);
            return false;
          }
        }
        assert out + tail == out + [CodeToken(lines[k].id)] + [NewlineToken];
        out := out + [CodeToken(lines[k].id)];
        k := k + 1;
      }
      assert lines[..|lines|] == lines;
      out := out + [NewlineToken];
      EmitRemainingDedents();
      out := out + [EndToken];
      ok := true;
    }
  }

  /** The first line, at column 0, finds the stack as it is. */
  lemma StartsAt(lines: seq<Line>)
    requires lines != [] && Column(lines[0].lead) == 0
    ensures Process([0], lines[..1]) == Some(Step([0], [] + [CodeToken(lines[0].id), NewlineToken]))
  {
    OnTop([0], 0);
    assert lines[..1][..0] == [];
    assert Process([0], lines[..1]) == Extend(Some(Step([0], [])), lines[0]);
    assert [] + Dedents(0) == [];
  }

  /** What the next line makes of the stack and the tokens before it. */
  lemma ProcessNext(lines: seq<Line>, k: nat, before: Step)
    requires k < |lines| && before.stack != [] && Process([0], lines[..k]) == Some(before)
    ensures var shift := Shift(before.stack, Column(lines[k].lead));
            Process([0], lines[..k + 1]) ==
              if shift.None? then None
              else Some(Step(shift.value.stack,
                             before.tokens + shift.value.tokens + [CodeToken(lines[k].id), NewlineToken]))
  {
    hide Shift, Column;
    assert lines[..k + 1][..k] == lines[..k];
  }

  lemma {:induction false} RestFails(lines: seq<Line>, k: nat)
    requires k < |lines| && Process([0], lines[..k + 1]).None?
    ensures Process([0], lines).None?
    decreases |lines|
  {
    if k + 1 < |lines| {
      assert lines[..|lines| - 1][..k + 1] == lines[..k + 1];
      RestFails(lines[..|lines| - 1], k);
    } else {
      assert lines[..k + 1] == lines;
    }
  }
}
