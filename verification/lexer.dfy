/** The tokenizer that feeds delimiter matching: its items, their lines, nested comments. */
module Lexer {
  import opened Wrappers
  import opened Delimiters

  // Character classes and string escapes, as the host language defines them.
  datatype Language = Language(isSpace: char -> bool, isAlpha: char -> bool, isAlnum: char -> bool,
                               decode: string -> Option<string>)

  predicate IsSane(lang: Language) {
    lang.isSpace('\n') && !lang.isAlpha('\n') && !lang.isAlnum('\n')
  }

  predicate At(s: string, i: nat, text: string) {
    i <= |s| && text <= s[i..]
  }

  // The first occurrence of the text at or behind i.
  function Find(s: string, text: string, i: nat): (r: Option<nat>)
    requires text != []
    ensures r.Some? ==> i <= r.value && r.value + |text| <= |s| && At(s, r.value, text)
    ensures forall k | i <= k < (if r.Some? then r.value else |s|) :: !At(s, k, text)
    decreases |s| - i
  {
    if i >= |s| then None
    else if At(s, i, text) then Some(i)
    else Find(s, text, i + 1)
  }

  // ---- nested comments ----

  // The comment mark at i, or a plain character, and where it ends.
  function MarkAt(s: string, i: nat): (r: (Role, nat))
    requires i < |s|
    ensures i < r.1 <= |s|
  {
    if At(s, i, "/*") then (Opens(Comment), i + 2)
    else if At(s, i, "*/") then (Closes(Comment), i + 2)
    else (Plain, i + 1)
  }

  // The marks from i to e, if e is where one of them ends.
  function MarksTo(s: string, i: nat, e: nat): Option<seq<Role>>
    requires i <= |s|
    decreases |s| - i
  {
    if i == e then Some([])
    else if i == |s| then None
    else
      match MarksTo(s, MarkAt(s, i).1, e)
      case None => None
      case Some(marks) => Some([MarkAt(s, i).0] + marks)
  }

  // The text from i to e is one comment, with comments nested in it.
  ghost predicate IsComment(s: string, i: nat, e: nat) {
    i <= |s| && MarksTo(s, i, e).Some? && IsGroup(MarksTo(s, i, e).value)
  }

  // Where the nesting depth comes down to zero.
  function CommentEnd(s: string, i: nat, depth: nat): (r: Option<nat>)
    requires i <= |s|
    ensures r.Some? ==> i <= r.value <= |s|
    decreases |s| - i
  {
    if depth == 0 then Some(i)
    else if i == |s| then None
    else
      var (mark, e) := MarkAt(s, i);
      CommentEnd(s, e, match mark case Opens(_) => depth + 1 case Closes(_) => depth - 1 case Plain => depth)
  }

  function Stack(depth: nat): (stack: seq<Bracket>)
    ensures |stack| == depth && forall b | b in stack :: b == Comment
  {
    seq(depth, _ => Comment)
  }

  lemma {:induction false} CommentEndCloses(s: string, i: nat, depth: nat, e: nat)
    requires i <= |s| && depth > 0
    ensures CommentEnd(s, i, depth) == Some(e)
            <==> MarksTo(s, i, e).Some? && After(MarksTo(s, i, e).value, Reading(Stack(depth))) == Closed
    decreases |s| - i
  {
    if i < |s| {
      var (mark, next) := MarkAt(s, i);
      assert Stack(depth) + [Comment] == Stack(depth + 1);
      assert Stack(depth)[..depth - 1] == Stack(depth - 1);
      if mark == Closes(Comment) && depth == 1 {
        forall marks: seq<Role> ensures After(marks, Closed) == Closed <==> marks == [] {
          BrokenStaysBroken(marks);
        }
        assert i != e && MarksTo(s, next, e).Some? ==> MarksTo(s, i, e).value[1..] == MarksTo(s, next, e).value;
        EmptyMarks(s, next, e);
      } else {
        CommentEndCloses(s, next, match mark case Opens(_) => depth + 1 case Closes(_) => depth - 1 case Plain => depth, e);
        assert i != e && MarksTo(s, next, e).Some? ==> MarksTo(s, i, e).value[1..] == MarksTo(s, next, e).value;
      }
    }
  }

  lemma EmptyMarks(s: string, i: nat, e: nat)
    requires i <= |s|
    ensures MarksTo(s, i, e) == Some([]) <==> i == e
  {
  }

  /** The depth counter finds the end of a nested comment exactly when there is one. */
  lemma CommentEndsWhereItCloses(s: string, i: nat, e: nat)
    requires At(s, i, "/*")
    ensures i + 2 <= |s| && (CommentEnd(s, i + 2, 1) == Some(e) <==> IsComment(s, i, e))
  {
    CommentEndCloses(s, i + 2, 1, e);
    assert MarkAt(s, i) == (Opens(Comment), i + 2);
    assert [] + [Comment] == Stack(1);
    if MarksTo(s, i, e).Some? {
      AcceptedIffGroup(MarksTo(s, i, e).value);
    }
    assert i != e && MarksTo(s, i + 2, e).Some? ==> MarksTo(s, i, e).value[1..] == MarksTo(s, i + 2, e).value;
  }

  // ---- lines ----

  function Newlines(s: string): nat {
    if s == [] then 0 else (if s[0] == '\n' then 1 else 0) + Newlines(s[1..])
  }

  lemma {:induction false} NewlinesConcat(a: string, b: string)
    ensures Newlines(a + b) == Newlines(a) + Newlines(b)
  {
    if a == [] {
      assert a + b == b;
    } else {
      assert (a + b)[1..] == a[1..] + b;
      NewlinesConcat(a[1..], b);
    }
  }

  lemma {:induction false} NoNewlines(s: string)
    requires '\n' !in s
    ensures Newlines(s) == 0
  {
    if s != [] {
      NoNewlines(s[1..]);
    }
  }

  lemma NewlinesSplit(s: string, i: nat, j: nat, k: nat)
    requires i <= j <= k <= |s|
    ensures Newlines(s[i..k]) == Newlines(s[i..j]) + Newlines(s[j..k])
  {
    assert s[i..k] == s[i..j] + s[j..k];
    NewlinesConcat(s[i..j], s[j..k]);
  }

  lemma OneCharacter(s: string, i: nat)
    requires i < |s|
    ensures Newlines(s[i..i + 1]) == if s[i] == '\n' then 1 else 0
  {
    assert s[i..i + 1] == [s[i]] && s[i..i + 1][1..] == [];
  }

  // What reading one mark of a comment does.
  lemma CommentStep(s: string, start: nat, i: nat, depth: nat)
    requires start <= i < |s| && depth > 0
    ensures var (mark, e) := MarkAt(s, i);
            && CommentEnd(s, i, depth)
               == CommentEnd(s, e, match mark case Opens(_) => depth + 1 case Closes(_) => depth - 1 case Plain => depth)
            && Newlines(s[start..e]) == Newlines(s[start..i]) + if mark == Plain && s[i] == '\n' then 1 else 0
  {
    MarkHasNoNewline(s, i);
    OneCharacter(s, i);
    NewlinesSplit(s, start, i, MarkAt(s, i).1);
  }

  /** The inner loop over a comment whose opening mark ends at start. */
  method SkipBlockComment(source: string, start: nat, line0: nat) returns (end: Option<nat>, line: nat)
    requires start <= |source|
    ensures end == CommentEnd(source, start, 1)
    ensures end.Some? ==> line == line0 + Newlines(source[start..end.value])
  {
    var depth: nat := 1;
    var cursor := start;
    line := line0;
    while cursor < |source| && depth > 0
      invariant start <= cursor <= |source|
      invariant CommentEnd(source, start, 1) == CommentEnd(source, cursor, depth)
      invariant line == line0 + Newlines(source[start..cursor])
    {
      CommentStep(source, start, cursor, depth);
      var (mark, next) := MarkAt(source, cursor);
      match mark {
        case Opens(_) => depth := depth + 1;
        case Closes(_) => depth := depth - 1;
        case Plain =>
          if source[cursor] == '\n' {
            line := line + 1;
          }
      }
      cursor := next;
    }
    end := if depth > 0 then None else Some(cursor);
  }

  lemma MarkHasNoNewline(s: string, i: nat)
    requires i < |s|
    ensures MarkAt(s, i).0 != Plain ==> Newlines(s[i..MarkAt(s, i).1]) == 0
  {
    if MarkAt(s, i).0 != Plain {
      assert s[i] == s[i..][0] && s[i + 1] == s[i..][1];
      assert s[i..i + 2] == [s[i], s[i + 1]];
      NoNewlines(s[i..i + 2]);
    }
  }

  // ---- literals and names ----

  // Behind the closing quote of a string whose contents start at i.
  function QuotedEnd(s: string, i: nat): (r: Option<nat>)
    ensures r.Some? ==> i < r.value <= |s|
    decreases |s| - i
  {
    if i >= |s| then None
    else if s[i] == '\\' then QuotedEnd(s, i + 2)
    else if s[i] == '"' then Some(i + 1)
    else QuotedEnd(s, i + 1)
  }

  function HashesEnd(s: string, i: nat): (e: nat)
    ensures i <= e && (i <= |s| ==> e <= |s|)
    decreases |s| - i
  {
    if i < |s| && s[i] == '#' then HashesEnd(s, i + 1) else i
  }

  datatype Raw = NotRaw | OpenRaw | Raw(end: nat, value: string)

  function RawStringAt(s: string, i: nat): (r: Raw)
    ensures r.Raw? ==> i < r.end <= |s|
  {
    var marker := if At(s, i, "br") || At(s, i, "cr") then i + 2 else if At(s, i, "r") then i + 1 else i;
    var hash := HashesEnd(s, marker);
    if marker == i || hash >= |s| || s[hash] != '"' then NotRaw
    else
      var closing := "\"" + seq(hash - marker, _ => '#');
      match Find(s, closing, hash + 1)
      case None => OpenRaw
      case Some(end) => Raw(end + |closing|, s[hash + 1..end])
  }

  function CharLiteralEnd(s: string, quote: nat): (r: Option<nat>)
    ensures r.Some? ==> quote < r.value <= |s|
  {
    var v := quote + 1;
    if v >= |s| || s[v] == '\r' || s[v] == '\n' || s[v] == '\'' then None
    else
      var end :=
        if s[v] != '\\' then Some(v + 1)
        else if v + 1 >= |s| then None
        else if s[v + 1] == 'x' then Some(v + 4)
        else if At(s, v, "\\u{") then (match Find(s, "}", v + 3) case None => None case Some(closing) => Some(closing + 1))
        else Some(v + 2);
      if end.Some? && end.value < |s| && s[end.value] == '\'' then Some(end.value + 1) else None
  }

  predicate IsNamePart(lang: Language, c: char) {
    lang.isAlnum(c) || c == '_'
  }

  function NameEnd(lang: Language, s: string, i: nat): (e: nat)
    requires i <= |s|
    ensures i <= e <= |s| && forall k | i <= k < e :: IsNamePart(lang, s[k])
    decreases |s| - i
  {
    if i < |s| && IsNamePart(lang, s[i]) then NameEnd(lang, s, i + 1) else i
  }

  // ---- items ----

  datatype What = Blank | LineComment | BlockComment | CharLiteral | Tok(kind: Kind, value: string)
  datatype Item = Item(start: nat, end: nat, what: What)
  datatype Fault = OpenComment | OpenRawString | OpenString | BadEscape

  function Quoted(lang: Language, s: string, i: nat, quote: nat): (r: Result<Item, Fault>)
    requires i <= quote
    ensures r.Ok? ==> r.value.start == i < r.value.end <= |s| && r.value.what.Tok?
  {
    match QuotedEnd(s, quote + 1)
    case None => Err(OpenString)
    case Some(end) =>
      match lang.decode(s[quote + 1..end - 1])
      case None => Err(BadEscape)
      case Some(value) => Ok(Item(i, end, Tok(CookedString, value)))
  }

  // A name, "::" or a single character.
  function NameOrSign(lang: Language, s: string, i: nat): (r: Item)
    requires i < |s|
    ensures r.start == i < r.end <= |s| && r.what.Tok?
  {
    var name := if At(s, i, "r#") then i + 2 else i;
    if name < |s| && (lang.isAlpha(s[name]) || s[name] == '_') then
      Item(i, NameEnd(lang, s, name + 1), Tok(Identifier, s[name..NameEnd(lang, s, name + 1)]))
    else if At(s, i, "::") then Item(i, i + 2, Tok(Punctuation, "::"))
    else Item(i, i + 1, Tok(Punctuation, [s[i]]))
  }

  /** The item at i, by the first rule that applies. */
  function ItemAt(lang: Language, s: string, i: nat): (r: Result<Item, Fault>)
    requires i < |s|
    ensures r.Ok? ==> r.value.start == i < r.value.end <= |s|
  {
    var c := s[i];
    if lang.isSpace(c) then Ok(Item(i, i + 1, Blank))
    else if At(s, i, "//") then
      Ok(Item(i, match Find(s, "\n", i + 2) case None => |s| case Some(end) => end, LineComment))
    else if At(s, i, "/*") then
      match CommentEnd(s, i + 2, 1)
      case None => Err(OpenComment)
      case Some(end) => Ok(Item(i, end, BlockComment))
    else
      match RawStringAt(s, i)
      case OpenRaw => Err(OpenRawString)
      case Raw(end, value) => Ok(Item(i, end, Tok(RawString, value)))
      case NotRaw =>
        if c == '"' then Quoted(lang, s, i, i)
        else if (c == 'b' || c == 'c') && At(s, i + 1, "\"") then Quoted(lang, s, i, i + 1)
        else
          var literal :=
            if c == '\'' then CharLiteralEnd(s, i)
            else if c == 'b' && At(s, i + 1, "'") then CharLiteralEnd(s, i + 1)
            else None;
          match literal
          case Some(end) => Ok(Item(i, end, CharLiteral))
          case None => Ok(NameOrSign(lang, s, i))
  }

  // All items from i on; a fault keeps the place where it occurred.
  function Items(lang: Language, s: string, i: nat): Result<seq<Item>, (Fault, nat)>
    requires i <= |s|
    decreases |s| - i
  {
    if i == |s| then Ok([])
    else
      match ItemAt(lang, s, i)
      case Err(fault) => Err((fault, i))
      case Ok(item) =>
        match Items(lang, s, item.end)
        case Err(error) => Err(error)
        case Ok(items) => Ok([item] + items)
  }

  // ---- lines of tokens ----

  // The line breaks that the scan counts: those inside a skipped character literal it does not.
  function Counted(s: string, item: Item): nat
    requires item.start <= item.end <= |s|
  {
    if item.what.CharLiteral? then 0 else Newlines(s[item.start..item.end])
  }

  // The items cover the text up to e, without gaps.
  ghost predicate Tile(s: string, items: seq<Item>, e: nat) {
    if items == [] then e == 0
    else
      var last := items[|items| - 1];
      last.start < last.end == e <= |s| && Tile(s, items[..|items| - 1], last.start)
  }

  predicate InRange(s: string, items: seq<Item>) {
    forall item | item in items :: item.start <= item.end <= |s|
  }

  // The line reported behind the items.
  function LineBehind(s: string, items: seq<Item>): nat
    requires InRange(s, items)
  {
    if items == [] then 1 else LineBehind(s, items[..|items| - 1]) + Counted(s, items[|items| - 1])
  }

  function TokensOf(s: string, items: seq<Item>): seq<Token>
    requires InRange(s, items)
  {
    if items == [] then []
    else
      var before, last := items[..|items| - 1], items[|items| - 1];
      TokensOf(s, before) + if last.what.Tok? then [Token(last.what.kind, last.what.value, LineBehind(s, before))] else []
  }

  lemma {:induction false} TileIsInRange(s: string, items: seq<Item>, e: nat)
    requires Tile(s, items, e)
    ensures InRange(s, items)
  {
    if items != [] {
      var before, last := items[..|items| - 1], items[|items| - 1];
      TileIsInRange(s, before, last.start);
      assert items == before + [last];
    }
  }

  lemma OneMoreItem(s: string, items: seq<Item>, item: Item)
    requires Tile(s, items, item.start) && item.start < item.end <= |s|
    ensures Tile(s, items + [item], item.end)
    ensures InRange(s, items + [item]) && InRange(s, items)
    ensures LineBehind(s, items + [item]) == LineBehind(s, items) + Counted(s, item)
    ensures TokensOf(s, items + [item])
            == TokensOf(s, items) + if item.what.Tok? then [Token(item.what.kind, item.what.value, LineBehind(s, items))] else []
  {
    TileIsInRange(s, items, item.start);
    assert (items + [item])[..|items|] == items;
  }

  // Line comments, names and signs hold no line break.
  lemma NoBreakInside(lang: Language, s: string, i: nat)
    requires IsSane(lang) && i < |s| && ItemAt(lang, s, i).Ok?
    ensures var item := ItemAt(lang, s, i).value;
            item.what.LineComment? || (item == NameOrSign(lang, s, i) && s[i] != '\n') ==> Newlines(s[i..item.end]) == 0
  {
    var item := ItemAt(lang, s, i).value;
    if item.what.LineComment? {
      assert s[i] == s[i..][0] && s[i + 1] == s[i..][1];
      forall k | i <= k < item.end ensures s[k] != '\n' {
        assert k >= i + 2 ==> !At(s, k, "\n");
        assert s[k..][0] == s[k];
      }
      NoNewlines(s[i..item.end]);
    } else if item == NameOrSign(lang, s, i) && s[i] != '\n' {
      assert At(s, i, "r#") ==> s[i + 1] == s[i..][1] == '#';
      assert At(s, i, "::") ==> s[i + 1] == s[i..][1] == ':';
      NoNewlines(s[i..item.end]);
    }
  }

  /** One turn of the main loop. */
  method ReadItem(lang: Language, source: string, index: nat, line0: nat) returns (r: Result<Item, Fault>, line: nat)
    requires IsSane(lang) && index < |source|
    ensures r == ItemAt(lang, source, index)
    ensures r.Ok? ==> line == line0 + Counted(source, r.value)
  {
    line := line0;
    r := ItemAt(lang, source, index);
    if lang.isSpace(source[index]) {
      OneCharacter(source, index);
      if source[index] == '\n' {
        line := line + 1;
      }
    } else if At(source, index, "//") {
      NoBreakInside(lang, source, index);
    } else if At(source, index, "/*") {
      var end;
      end, line := SkipBlockComment(source, index + 2, line);
      if end.Some? {
        NewlinesSplit(source, index, index + 2, end.value);
        MarkHasNoNewline(source, index);
      }
    } else if r.Ok? && r.value.what.Tok? && r.value != NameOrSign(lang, source, index) {
      line := line + Newlines(source[index..r.value.end]);
    } else if r.Ok? && r.value.what.Tok? {
      NoBreakInside(lang, source, index);
    }
  }

  function Prepend(done: seq<Item>, rest: Result<seq<Item>, (Fault, nat)>): Result<seq<Item>, (Fault, nat)> {
    match rest
    case Ok(items) => Ok(done + items)
    case Err(error) => Err(error)
  }

  lemma NothingPrepended(rest: Result<seq<Item>, (Fault, nat)>)
    ensures Prepend([], rest) == rest
  {
    if rest.Ok? {
      assert [] + rest.value == rest.value;
    }
  }

  /** The main loop: every turn advances, so it ends on every text, and yields the tokens of all
      items with the lines counted so far. */
  method Tokenize(lang: Language, source: string) returns (r: Result<seq<Token>, Fault>)
    requires IsSane(lang)
    ensures Items(lang, source, 0).Ok? ==>
              var items := Items(lang, source, 0).value;
              Tile(source, items, |source|) && InRange(source, items) && r == Ok(TokensOf(source, items))
    ensures Items(lang, source, 0).Err? ==> r == Err(Items(lang, source, 0).error.0)
  {
    var tokens: seq<Token>, index: nat, line: nat := [], 0, 1;
    ghost var done: seq<Item> := [];
    NothingPrepended(Items(lang, source, 0));
    while index < |source|
      invariant index <= |source| && Tile(source, done, index)
      invariant InRange(source, done)
      invariant Items(lang, source, 0) == Prepend(done, Items(lang, source, index))
      invariant tokens == TokensOf(source, done) && line == LineBehind(source, done)
    {
      var before := line;
      var item;
      item, line := ReadItem(lang, source, index, line);
      if item.Err? {
        return Err(item.error);
      }
      OneMoreItem(source, done, item.value);
      if item.value.what.Tok? {
        tokens := tokens + [Token(item.value.what.kind, item.value.what.value, before)];
      }
      PrependOneMore(lang, source, done, index);
      done := done + [item.value];
      index := item.value.end;
    }
    assert done + [] == done;
    return Ok(tokens);
  }

  lemma PrependOneMore(lang: Language, s: string, done: seq<Item>, i: nat)
    requires i < |s| && ItemAt(lang, s, i).Ok?
    ensures var item := ItemAt(lang, s, i).value;
            Prepend(done, Items(lang, s, i)) == Prepend(done + [item], Items(lang, s, item.end))
  {
    var item := ItemAt(lang, s, i).value;
    if Items(lang, s, item.end).Ok? {
      var rest := Items(lang, s, item.end).value;
      assert done + ([item] + rest) == done + [item] + rest;
    }
  }

  // No skipped character literal holds a line break.
  ghost predicate NoHiddenBreak(s: string, items: seq<Item>)
    requires InRange(s, items)
  {
    forall item | item in items && item.what.CharLiteral? :: '\n' !in s[item.start..item.end]
  }

  lemma {:induction false} HasNewlines(s: string)
    requires '\n' in s
    ensures Newlines(s) > 0
  {
    if s[0] != '\n' {
      HasNewlines(s[1..]);
    }
  }

  /** The reported line is the true one exactly while no character literal has hidden a break;
      it never runs ahead. */
  lemma {:induction false} LinesAreTrue(s: string, items: seq<Item>, e: nat)
    requires Tile(s, items, e)
    ensures InRange(s, items)
    ensures e <= |s| && LineBehind(s, items) <= 1 + Newlines(s[..e])
    ensures LineBehind(s, items) == 1 + Newlines(s[..e]) <==> NoHiddenBreak(s, items)
  {
    TileIsInRange(s, items, e);
    if items != [] {
      var before, last := items[..|items| - 1], items[|items| - 1];
      LinesAreTrue(s, before, last.start);
      NewlinesSplit(s, 0, last.start, e);
      assert items == before + [last];
      if last.what.CharLiteral? {
        if '\n' in s[last.start..e] {
          HasNewlines(s[last.start..e]);
        } else {
          NoNewlines(s[last.start..e]);
        }
      }
    }
  }

  /** An escaped line break between single quotes is skipped as a character literal, so what
      follows is reported one line too early. */
  lemma EscapedBreakIsHidden(lang: Language)
    requires !lang.isSpace('\'') && !lang.isSpace('x') && lang.isAlpha('x')
    ensures var s := ['\'', '\\', '\n', '\'', 'x'];
            && Items(lang, s, 0) == Ok([HIDING, Item(4, 5, Tok(Identifier, "x"))])
            && TokensOf(s, [HIDING, Item(4, 5, Tok(Identifier, "x"))]) == [Token(Identifier, "x", 1)]
            && 1 + Newlines(s[..4]) == 2
  {
    var s := ['\'', '\\', '\n', '\'', 'x'];
    LiteralIsSkipped(lang, s);
    NameIsRead(lang, s);
    var last, items := Item(4, 5, Tok(Identifier, "x")), [HIDING, Item(4, 5, Tok(Identifier, "x"))];
    assert Items(lang, s, 5) == Ok([]) && [last] + [] == [last] && [HIDING] + [last] == items;
    assert items[..1] == [HIDING] && items[..1][..0] == [];
    assert LineBehind(s, [HIDING]) == 1 && TokensOf(s, [HIDING]) == [];
    assert s[..4][1..] == ['\\', '\n', '\''] && s[..4][1..][1..] == ['\n', '\''];
    assert Newlines(s[..4][1..][1..]) == 1 by {
      assert s[..4][1..][1..][1..] == ['\''] && ['\''][1..] == [];
    }
  }

  const HIDING := Item(0, 4, CharLiteral)

  lemma LiteralIsSkipped(lang: Language, s: string)
    requires s == ['\'', '\\', '\n', '\'', 'x'] && !lang.isSpace('\'')
    ensures ItemAt(lang, s, 0) == Ok(HIDING)
  {
    assert s[0..][0] == '\'' && s[1..][1] == '\n';
  }

  lemma NameIsRead(lang: Language, s: string)
    requires s == ['\'', '\\', '\n', '\'', 'x'] && !lang.isSpace('x') && lang.isAlpha('x')
    ensures ItemAt(lang, s, 4) == Ok(Item(4, 5, Tok(Identifier, "x")))
  {
    assert s[4..] == ['x'] && s[4..5] == "x";
  }
}
