/** Matching of delimiters: a stack loop against a grammar of nested groups. */
module Delimiters {
  import opened Wrappers

  datatype Bracket = Round | Square | Curly | Comment

  // What a token is to the grammar.
  datatype Role = Opens(b: Bracket) | Closes(b: Bracket) | Plain

  // ---- the grammar ----

  datatype Tree = Leaf | Group(b: Bracket, children: seq<Tree>)

  // A tree as it is written.
  function Write(t: Tree): seq<Role> {
    match t
    case Leaf => [Plain]
    case Group(b, children) => [Opens(b)] + WriteAll(children) + [Closes(b)]
  }

  function WriteAll(ts: seq<Tree>): seq<Role> {
    if ts == [] then [] else Write(ts[0]) + WriteAll(ts[1..])
  }

  // One well-nested group, behind any number of plain tokens.
  ghost predicate IsGroup(rs: seq<Role>) {
    exists n: nat, b, children :: rs == Plains(n) + Write(Group(b, children))
  }

  function Plains(n: nat): seq<Role> {
    if n == 0 then [] else [Plain] + Plains(n - 1)
  }

  // What some continuation could still complete to a group.
  ghost predicate IsUnfinished(rs: seq<Role>) {
    exists more | more != [] :: IsGroup(rs + more)
  }

  // ---- the stack machine ----

  datatype State = Reading(stack: seq<Bracket>) | Closed | Broken

  function Next(st: State, r: Role): State {
    if !st.Reading? then Broken
    else
      match r
      case Plain => st
      case Opens(b) => Reading(st.stack + [b])
      case Closes(b) =>
        var top := |st.stack| - 1;
        if top < 0 || st.stack[top] != b then Broken
        else if top == 0 then Closed
        else Reading(st.stack[..top])
  }

  function After(rs: seq<Role>, st: State): State {
    if rs == [] then st else After(rs[1..], Next(st, rs[0]))
  }

  lemma {:induction false} AfterConcat(a: seq<Role>, b: seq<Role>, st: State)
    ensures After(a + b, st) == After(b, After(a, st))
  {
    if a == [] {
      assert a + b == b;
    } else {
      assert (a + b)[1..] == a[1..] + b;
      AfterConcat(a[1..], b, Next(st, a[0]));
    }
  }

  lemma AfterOne(a: seq<Role>, r: Role, st: State)
    ensures After(a + [r], st) == Next(After(a, st), r)
  {
    AfterConcat(a, [r], st);
    assert [r][1..] == [];
  }

  lemma {:induction false} BrokenStaysBroken(rs: seq<Role>)
    ensures After(rs, Broken) == Broken
    ensures rs != [] ==> After(rs, Closed) == Broken
  {
    if rs != [] {
      BrokenStaysBroken(rs[1..]);
    }
  }

  // ---- what is written by the grammar is accepted ----

  function Finish(stack: seq<Bracket>): State {
    if stack == [] then Closed else Reading(stack)
  }

  lemma {:induction false} TreeIsAccepted(t: Tree, stack: seq<Bracket>)
    requires t.Leaf? ==> stack != []
    ensures After(Write(t), Reading(stack)) == Finish(stack)
    decreases t, 0
  {
    match t
    case Leaf => assert Write(t)[1..] == [];
    case Group(b, children) =>
      var inner := stack + [b];
      ForestIsAccepted(children, inner);
      assert ([Opens(b)] + WriteAll(children))[1..] == WriteAll(children);
      assert After([Opens(b)] + WriteAll(children), Reading(stack)) == Reading(inner);
      AfterOne([Opens(b)] + WriteAll(children), Closes(b), Reading(stack));
      assert inner[..|inner| - 1] == stack;
  }

  lemma {:induction false} ForestIsAccepted(ts: seq<Tree>, stack: seq<Bracket>)
    requires stack != []
    ensures After(WriteAll(ts), Reading(stack)) == Reading(stack)
    decreases ts, 1
  {
    if ts != [] {
      TreeIsAccepted(ts[0], stack);
      ForestIsAccepted(ts[1..], stack);
      AfterConcat(Write(ts[0]), WriteAll(ts[1..]), Reading(stack));
    }
  }

  lemma {:induction false} PlainsAreRead(n: nat)
    ensures After(Plains(n), Reading([])) == Reading([])
  {
    if n > 0 {
      PlainsAreRead(n - 1);
      assert Plains(n)[1..] == Plains(n - 1);
    }
  }

  // ---- what is accepted is written by the grammar ----

  // Behind a forest, the bracket on top of the stack is closed, and then the rest is read.
  ghost predicate Splits(rs: seq<Role>, stack: seq<Bracket>, ts: seq<Tree>, rest: seq<Role>) {
    && stack != []
    && rs == WriteAll(ts) + [Closes(stack[|stack| - 1])] + rest
    && After(rest, Finish(stack[..|stack| - 1])) == Closed
  }

  lemma {:induction false} AcceptedSplits(rs: seq<Role>, stack: seq<Bracket>) returns (ts: seq<Tree>, rest: seq<Role>)
    requires stack != [] && After(rs, Reading(stack)) == Closed
    ensures Splits(rs, stack, ts, rest)
    decreases |rs|
  {
    match rs[0]
    case Plain =>
      ts, rest := AcceptedSplits(rs[1..], stack);
      WriteFirst(Leaf, ts);
      ts := [Leaf] + ts;
    case Opens(b) =>
      var inner, behind := AcceptedSplits(rs[1..], stack + [b]);
      assert (stack + [b])[..|stack|] == stack;
      ts, rest := AcceptedSplits(behind, stack);
      WriteFirst(Group(b, inner), ts);
      ts := [Group(b, inner)] + ts;
    case Closes(b) =>
      BrokenStaysBroken(rs[1..]);
      ts, rest := [], rs[1..];
  }

  lemma WriteFirst(t: Tree, ts: seq<Tree>)
    ensures WriteAll([t] + ts) == Write(t) + WriteAll(ts)
  {
    assert ([t] + ts)[0] == t && ([t] + ts)[1..] == ts;
  }

  lemma {:induction false} AcceptedIsGroup(rs: seq<Role>)
    requires After(rs, Reading([])) == Closed
    ensures IsGroup(rs)
  {
    match rs[0]
    case Plain =>
      AcceptedIsGroup(rs[1..]);
      var n: nat, b, children :| rs[1..] == Plains(n) + Write(Group(b, children));
      assert rs == Plains(n + 1) + Write(Group(b, children));
    case Opens(b) =>
      assert [] + [b] == [b];
      var children, rest := AcceptedSplits(rs[1..], [b]);
      BrokenStaysBroken(rest);
      assert rs == Plains(0) + Write(Group(b, children));
    case Closes(_) =>
      BrokenStaysBroken(rs[1..]);
  }

  /** The stack machine accepts exactly the groups of the grammar. */
  lemma AcceptedIffGroup(rs: seq<Role>)
    ensures After(rs, Reading([])) == Closed <==> IsGroup(rs)
  {
    if After(rs, Reading([])) == Closed {
      AcceptedIsGroup(rs);
    }
    if IsGroup(rs) {
      var n: nat, b, children :| rs == Plains(n) + Write(Group(b, children));
      PlainsAreRead(n);
      TreeIsAccepted(Group(b, children), []);
      AfterConcat(Plains(n), Write(Group(b, children)), Reading([]));
    }
  }

  // ---- unfinished groups ----

  // The closers that a stack still waits for.
  function Closers(stack: seq<Bracket>): seq<Role> {
    if stack == [] then [] else [Closes(stack[|stack| - 1])] + Closers(stack[..|stack| - 1])
  }

  lemma {:induction false} ClosersClose(stack: seq<Bracket>)
    requires stack != []
    ensures After(Closers(stack), Reading(stack)) == Closed
  {
    var outer := stack[..|stack| - 1];
    assert Closers(stack)[1..] == Closers(outer);
    if outer == [] {
      assert Closers(outer) == [];
    } else {
      ClosersClose(outer);
    }
  }

  /** The stack machine still reads exactly while some continuation completes a group. */
  lemma ReadingIffUnfinished(rs: seq<Role>)
    ensures After(rs, Reading([])).Reading? <==> IsUnfinished(rs)
  {
    var st := After(rs, Reading([]));
    if st.Reading? {
      var more := if st.stack == [] then [Opens(Round), Closes(Round)] else Closers(st.stack);
      if st.stack == [] {
        assert [] + [Round] == [Round] && more[1..] == [Closes(Round)] && more[1..][1..] == [];
        assert After(more[1..], Reading([Round])) == Closed;
      } else {
        ClosersClose(st.stack);
      }
      AfterConcat(rs, more, Reading([]));
      AcceptedIffGroup(rs + more);
      assert more != [] && IsGroup(rs + more);
    }
    forall more | more != [] && IsGroup(rs + more) ensures st.Reading? {
      AcceptedIffGroup(rs + more);
      AfterConcat(rs, more, Reading([]));
      BrokenStaysBroken(more);
    }
  }

  /** No group is a proper prefix of another one: the span that starts somewhere is unique, and
      so the shortest. */
  lemma GroupIsShortest(rs: seq<Role>, more: seq<Role>)
    requires IsGroup(rs) && more != []
    ensures !IsGroup(rs + more) && !IsUnfinished(rs)
  {
    AcceptedIffGroup(rs);
    AcceptedIffGroup(rs + more);
    ReadingIffUnfinished(rs);
    AfterConcat(rs, more, Reading([]));
    BrokenStaysBroken(more);
  }

  /** From an opening token the span is a single group of that bracket. */
  lemma OpenerStartsItsGroup(rs: seq<Role>, b: Bracket)
    requires IsGroup(rs) && rs[0] == Opens(b)
    ensures exists children :: rs == Write(Group(b, children))
  {
    var n: nat, b', children :| rs == Plains(n) + Write(Group(b', children));
    FirstOfGroup(n, b', children);
    assert rs == Write(Group(b', children));
  }

  lemma FirstOfGroup(n: nat, b: Bracket, children: seq<Tree>)
    ensures (Plains(n) + Write(Group(b, children)))[0] == if n == 0 then Opens(b) else Plain
  {
  }

  // ---- tokens ----

  datatype Kind = Identifier | RawString | CookedString | Punctuation
  datatype Token = Token(kind: Kind, value: string, line: nat)

  // Brackets inside string literals are plain.
  function RoleOf(t: Token): Role {
    if t.kind != Punctuation then Plain
    else if t.value == "(" then Opens(Round)
    else if t.value == "[" then Opens(Square)
    else if t.value == "{" then Opens(Curly)
    else if t.value == ")" then Closes(Round)
    else if t.value == "]" then Closes(Square)
    else if t.value == "}" then Closes(Curly)
    else Plain
  }

  function Roles(tokens: seq<Token>): (rs: seq<Role>)
    ensures |rs| == |tokens| && forall k | 0 <= k < |rs| :: rs[k] == RoleOf(tokens[k])
  {
    seq(|tokens|, k requires 0 <= k < |tokens| => RoleOf(tokens[k]))
  }

  // The span of tokens from the opener to c.
  ghost predicate IsSpan(tokens: seq<Token>, openIndex: nat, c: nat) {
    openIndex <= c < |tokens| && IsGroup(Roles(tokens[openIndex..c + 1]))
  }

  datatype ScanError = Mismatched(line: nat) | Unterminated(line: nat)

  // The first token that no group can hold at its place.
  ghost predicate BreaksAt(tokens: seq<Token>, openIndex: nat, j: nat) {
    && openIndex <= j < |tokens|
    && IsUnfinished(Roles(tokens[openIndex..j]))
    && !IsGroup(Roles(tokens[openIndex..j + 1])) && !IsUnfinished(Roles(tokens[openIndex..j + 1]))
  }

  // What the tokens up to, not including, index mean to the search.
  lemma OneTokenRead(tokens: seq<Token>, openIndex: nat, index: nat, stack: seq<Bracket>)
    requires openIndex <= index < |tokens|
    requires After(Roles(tokens[openIndex..index]), Reading([])) == Reading(stack)
    ensures var st := Next(Reading(stack), RoleOf(tokens[index]));
            && After(Roles(tokens[openIndex..index + 1]), Reading([])) == st
            && (IsSpan(tokens, openIndex, index) <==> st.Closed?)
            && (BreaksAt(tokens, openIndex, index) <==> st.Broken?)
  {
    var before, after := Roles(tokens[openIndex..index]), Roles(tokens[openIndex..index + 1]);
    assert after == before + [RoleOf(tokens[index])];
    AfterOne(before, RoleOf(tokens[index]), Reading([]));
    ReadingIffUnfinished(before);
    ReadingIffUnfinished(after);
    AcceptedIffGroup(after);
  }

  lemma SpanPrefixIsUnfinished(tokens: seq<Token>, openIndex: nat, j: nat, c: nat)
    requires openIndex <= j < c && IsSpan(tokens, openIndex, c)
    ensures IsUnfinished(Roles(tokens[openIndex..j + 1]))
  {
    var part, more := Roles(tokens[openIndex..j + 1]), Roles(tokens[j + 1..c + 1]);
    assert Roles(tokens[openIndex..c + 1]) == part + more;
  }

  // No longer span is a group once the search has ended.
  lemma NothingBehind(tokens: seq<Token>, openIndex: nat, j: nat)
    requires openIndex <= j < |tokens| && !IsUnfinished(Roles(tokens[openIndex..j + 1]))
    ensures forall c: nat | j < c :: !IsSpan(tokens, openIndex, c)
  {
    forall c: nat | j < c ensures !IsSpan(tokens, openIndex, c) {
      if IsSpan(tokens, openIndex, c) {
        SpanPrefixIsUnfinished(tokens, openIndex, j, c);
      }
    }
  }

  /** The matching delimiter: the end of the one span that is a group. Without such a span the
      error names the token that no group can hold at its place, or, when all tokens are read
      and only more of them could complete the group, the opener. */
  method MatchingDelimiter(tokens: seq<Token>, openIndex: nat) returns (r: Result<nat, ScanError>)
    requires openIndex < |tokens|
    ensures forall c: nat :: IsSpan(tokens, openIndex, c) <==> r == Ok(c)
    ensures r.Err? && r.error.Mismatched? ==> exists j: nat :: BreaksAt(tokens, openIndex, j) && r.error.line == tokens[j].line
    ensures r.Err? && r.error.Unterminated? ==> IsUnfinished(Roles(tokens[openIndex..])) && r.error.line == tokens[openIndex].line
  {
    var stack: seq<Bracket> := [];
    for index := openIndex to |tokens|
      invariant After(Roles(tokens[openIndex..index]), Reading([])) == Reading(stack)
      invariant forall c: nat | openIndex <= c < index :: !IsSpan(tokens, openIndex, c)
    {
      OneTokenRead(tokens, openIndex, index, stack);
      var role := RoleOf(tokens[index]);
      if role.Opens? {
        stack := stack + [role.b];
        continue;
      }
      if !role.Closes? {
        continue;
      }
      if stack == [] || stack[|stack| - 1] != role.b {
        NothingBehind(tokens, openIndex, index);
        return Err(Mismatched(tokens[index].line));
      }
      stack := stack[..|stack| - 1];
      if stack == [] {
        GroupEnds(tokens, openIndex, index);
        return Ok(index);
      }
    }
    assert tokens[openIndex..|tokens|] == tokens[openIndex..];
    ReadingIffUnfinished(Roles(tokens[openIndex..]));
    return Err(Unterminated(tokens[openIndex].line));
  }

  lemma GroupEnds(tokens: seq<Token>, openIndex: nat, c: nat)
    requires IsSpan(tokens, openIndex, c)
    ensures forall c': nat | c < c' :: !IsSpan(tokens, openIndex, c')
  {
    GroupIsShortest(Roles(tokens[openIndex..c + 1]), [Plain]);
    NothingBehind(tokens, openIndex, c);
  }
}
