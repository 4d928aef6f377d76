/** Environment substitution in configuration text: lines, comments, placeholders. */
module ConfigText {
  import opened Wrappers
  import opened Orders
  import opened Sorting

  // ---- placeholders ----

  predicate IsNameStart(c: char) {
    'a' <= c <= 'z' || 'A' <= c <= 'Z' || c == '_'
  }

  predicate IsNameChar(c: char) {
    IsNameStart(c) || '0' <= c <= '9'
  }

  // What may stand before a bare placeholder.
  predicate IsPrefixChar(c: char) {
    !IsNameChar(c) && c != '$'
  }

  // A piece of a segment; a bare placeholder carries the character consumed before it, if any.
  datatype Piece = Literal(c: char) | Braced(name: string) | Bare(prefix: string, name: string)

  function NameEnd(s: string, i: nat): (e: nat)
    requires i <= |s|
    ensures i <= e <= |s| && forall k | i <= k < e :: IsNameChar(s[k])
    ensures e < |s| ==> !IsNameChar(s[e])
    decreases |s| - i
  {
    if i < |s| && IsNameChar(s[i]) then NameEnd(s, i + 1) else i
  }

  // The end of the longest name that starts at i.
  function NameAt(s: string, i: nat): (r: Option<nat>)
    ensures r.Some? ==> i < r.value <= |s| && IsNameStart(s[i]) && forall k | i <= k < r.value :: IsNameChar(s[k])
    ensures r.Some? && r.value < |s| ==> !IsNameChar(s[r.value])
    ensures r.Some? <==> i < |s| && IsNameStart(s[i])
  {
    if i < |s| && IsNameStart(s[i]) then Some(NameEnd(s, i + 1)) else None
  }

  // "${NAME}" at i, as the index after it.
  function BracedAt(s: string, i: nat): (r: Option<nat>)
    ensures r.Some? ==> i + 3 < r.value <= |s| && s[i] == '$' && s[i + 1] == '{' && s[r.value - 1] == '}'
                        && NameAt(s, i + 2) == Some(r.value - 1)
  {
    if i + 1 < |s| && s[i] == '$' && s[i + 1] == '{' then
      match NameAt(s, i + 2)
      case Some(e) => if e < |s| && s[e] == '}' then Some(e + 1) else None
      case None => None
    else None
  }

  // The match at i, if there is one: the braced form first, then the bare form, whose start is
  // the start of the segment or one prefix character.
  function MatchAt(s: string, i: nat): (r: Option<(Piece, nat)>)
    requires i < |s|
    ensures r.Some? ==> i < r.value.1 <= |s| && !r.value.0.Literal?
  {
    match BracedAt(s, i)
    case Some(e) => Some((Braced(s[i + 2..e - 1]), e))
    case None =>
      if i == 0 && s[0] == '$' && NameAt(s, 1).Some? then
        var e := NameAt(s, 1).value;
        Some((Bare("", s[1..e]), e))
      else if IsPrefixChar(s[i]) && i + 1 < |s| && s[i + 1] == '$' && NameAt(s, i + 2).Some? then
        var e := NameAt(s, i + 2).value;
        Some((Bare([s[i]], s[i + 2..e]), e))
      else None
  }

  // The piece that the scan takes at i, and where it ends.
  function Take(s: string, i: nat): (r: (Piece, nat))
    requires i < |s|
    ensures i < r.1 <= |s|
  {
    match MatchAt(s, i)
    case Some(m) => m
    case None => (Literal(s[i]), i + 1)
  }

  /** Leftmost matches, each continuing behind the previous one. */
  function Pieces(s: string, i: nat): seq<Piece>
    requires i <= |s|
    decreases |s| - i
  {
    if i == |s| then [] else [Take(s, i).0] + Pieces(s, Take(s, i).1)
  }

  function Print(p: Piece): string {
    match p
    case Literal(c) => [c]
    case Braced(name) => "${" + name + "}"
    case Bare(prefix, name) => prefix + "$" + name
  }

  function PrintAll(ps: seq<Piece>): string {
    if ps == [] then "" else Print(ps[0]) + PrintAll(ps[1..])
  }

  // A taken piece prints as the text it was taken from.
  lemma TakePrints(s: string, i: nat)
    requires i < |s|
    ensures Print(Take(s, i).0) == s[i..Take(s, i).1]
  {
    var (p, e) := Take(s, i);
    if p.Braced? {
      BracedPrints(s, i, e);
    } else if p.Bare? {
      BarePrints(s, if p.prefix == "" then i else i + 1, e);
    }
  }

  lemma BracedPrints(s: string, i: nat, e: nat)
    requires i < |s| && BracedAt(s, i) == Some(e)
    ensures "${" + s[i + 2..e - 1] + "}" == s[i..e]
  {
    assert s[i..e] == [s[i]] + [s[i + 1]] + s[i + 2..e - 1] + [s[e - 1]];
  }

  lemma BarePrints(s: string, i: nat, e: nat)
    requires i < e <= |s| && s[i] == '$'
    ensures "" + "$" + s[i + 1..e] == s[i..e]
    ensures i > 0 ==> [s[i - 1]] + "$" + s[i + 1..e] == s[i - 1..e]
  {
    assert s[i..e] == [s[i]] + s[i + 1..e];
  }

  type Env = map<string, string>

  function Render(p: Piece, env: Env): string {
    match p
    case Literal(c) => [c]
    case Braced(name) => if name in env then env[name] else Print(p)
    case Bare(prefix, name) => if name in env then prefix + env[name] else Print(p)
  }

  function RenderAll(ps: seq<Piece>, env: Env): string {
    if ps == [] then "" else Render(ps[0], env) + RenderAll(ps[1..], env)
  }

  // The names that the replacement callback reports, in the order of the matches.
  function MissingNames(ps: seq<Piece>, env: Env): seq<string> {
    if ps == [] then []
    else (if ps[0].Braced? && ps[0].name !in env then [ps[0].name] else []) + MissingNames(ps[1..], env)
  }

  // ---- lines and comments ----

  function LineEnd(s: string): (e: nat)
    requires s != []
    ensures 0 < e <= |s| && (e < |s| ==> s[e - 1] == '\n') && forall k | 0 <= k < e - 1 :: s[k] != '\n'
  {
    if s[0] == '\n' || |s| == 1 then 1 else 1 + LineEnd(s[1..])
  }

  function Lines(s: string): seq<string> {
    if s == [] then [] else [s[..LineEnd(s)]] + Lines(s[LineEnd(s)..])
  }

  predicate EndsIn(s: string, c: char) {
    s != [] && s[|s| - 1] == c
  }

  function SplitLineEnding(line: string): (r: (string, string))
    ensures r.0 + r.1 == line
    ensures r.1 == "\r\n" || (r.1 == "\n" && !EndsIn(r.0, '\r')) || (r.1 == "" && !EndsIn(line, '\n'))
  {
    var n := |line|;
    if n >= 2 && line[n - 2..] == "\r\n" then (line[..n - 2], line[n - 2..])
    else if n >= 1 && line[n - 1] == '\n' then (line[..n - 1], line[n - 1..])
    else (line, "")
  }

  predicate IsWhitespace(c: char) {
    '\t' <= c <= '\r' || c == ' ' || c == '\U{0085}' || c == '\U{00A0}' || c == '\U{1680}'
    || '\U{2000}' <= c <= '\U{200A}' || c == '\U{2028}' || c == '\U{2029}' || c == '\U{202F}'
    || c == '\U{205F}' || c == '\U{3000}'
  }

  // The index behind a double-quoted string whose contents start at i; backslash escapes.
  function CloseDouble(s: string, i: nat): (e: nat)
    ensures e >= i
    decreases |s| - i
  {
    if i >= |s| then i
    else if s[i] == '\\' then CloseDouble(s, i + 2)
    else if s[i] == '"' then i + 1
    else CloseDouble(s, i + 1)
  }

  // The index behind a single-quoted string; a doubled quote is an escaped one.
  function CloseSingle(s: string, i: nat): (e: nat)
    ensures e >= i
    decreases |s| - i
  {
    if i >= |s| then i
    else if s[i] == '\'' then (if i + 1 < |s| && s[i + 1] == '\'' then CloseSingle(s, i + 2) else i + 1)
    else CloseSingle(s, i + 1)
  }

  predicate StartsComment(s: string, i: nat)
    requires i < |s|
  {
    s[i] == '#' && (i == 0 || IsWhitespace(s[i - 1]))
  }

  // The next position outside quotes.
  function Skip(s: string, i: nat): (e: nat)
    requires i < |s|
    ensures e > i
  {
    if s[i] == '"' then CloseDouble(s, i + 1)
    else if s[i] == '\'' then CloseSingle(s, i + 1)
    else i + 1
  }

  /** Where the comment starts, reading on from a position outside quotes. */
  function CommentStart(s: string, i: nat): (k: nat)
    ensures k <= |s|
    decreases |s| - i
  {
    if i >= |s| then |s|
    else if StartsComment(s, i) then i
    else CommentStart(s, Skip(s, i))
  }

  /** The flag loop finds the same place. */
  method SplitYamlComment(line: string) returns (text: string, comment: string)
    ensures text == line[..CommentStart(line, 0)] && comment == line[CommentStart(line, 0)..]
  {
    var inSingle, inDouble, doubleEscaped, singleEscaped := false, false, false, false;
    var previous: Option<char> := None;
    for i := 0 to |line|
      invariant previous == if i == 0 then None else Some(line[i - 1])
      invariant !(inSingle && inDouble) && (doubleEscaped ==> inDouble) && (singleEscaped ==> inSingle)
      invariant singleEscaped ==> i < |line| && line[i] == '\''
      invariant CommentStart(line, 0) == CommentStart(line,
                  if inDouble then CloseDouble(line, if doubleEscaped then i + 1 else i)
                  else if inSingle then CloseSingle(line, if singleEscaped then i + 1 else i)
                  else i)
    {
      var ch := line[i];
      if inDouble {
        if doubleEscaped {
          doubleEscaped := false;
        } else if ch == '\\' {
          doubleEscaped := true;
        } else if ch == '"' {
          inDouble := false;
        }
        previous := Some(ch);
        continue;
      }
      if inSingle {
        if singleEscaped {
          singleEscaped := false;
        } else if ch == '\'' && i + 1 < |line| && line[i + 1] == '\'' {
          singleEscaped := true;
        } else if ch == '\'' {
          inSingle := false;
        }
        previous := Some(ch);
        continue;
      }
      if ch == '\'' {
        inSingle := true;
      } else if ch == '"' {
        inDouble := true;
      } else if ch == '#' && (previous.None? || IsWhitespace(previous.value)) {
        return line[..i], line[i..];
      }
      previous := Some(ch);
    }
    return line, "";
  }

  // ---- the document ----

  datatype Line = Line(pieces: seq<Piece>, comment: string, ending: string)

  function ParseLine(line: string): Line {
    var (body, ending) := SplitLineEnding(line);
    var k := CommentStart(body, 0);
    Line(Pieces(body[..k], 0), body[k..], ending)
  }

  function ParseLines(lines: seq<string>): seq<Line> {
    if lines == [] then [] else [ParseLine(lines[0])] + ParseLines(lines[1..])
  }

  function Parse(input: string): seq<Line> {
    ParseLines(Lines(input))
  }

  function PrintLine(l: Line): string {
    PrintAll(l.pieces) + l.comment + l.ending
  }

  function PrintDoc(doc: seq<Line>): string {
    if doc == [] then "" else PrintLine(doc[0]) + PrintDoc(doc[1..])
  }

  // Comments and line endings are copied.
  function RenderLine(l: Line, env: Env): string {
    RenderAll(l.pieces, env) + l.comment + l.ending
  }

  function RenderDoc(doc: seq<Line>, env: Env): string {
    if doc == [] then "" else RenderLine(doc[0], env) + RenderDoc(doc[1..], env)
  }

  // Placeholders in the text of a document, comments aside.
  predicate HasPiece(doc: seq<Line>, p: Piece) {
    exists l | l in doc :: p in l.pieces
  }

  // Insertion into an ordered set of names.
  function AddName(names: seq<string>, name: string): seq<string> {
    if name in names then names else Insert(Less, name, names)
  }

  function AddNames(names: seq<string>, more: seq<string>): seq<string>
    decreases |more|
  {
    if more == [] then names else AddNames(AddName(names, more[0]), more[1..])
  }

  lemma AddNameKeepsSorted(names: seq<string>, name: string)
    requires StrictlySorted(Less, names)
    ensures StrictlySorted(Less, AddName(names, name))
    ensures forall n :: n in AddName(names, name) <==> n in names || n == name
  {
    if name !in names {
      LessIsStrictOrder();
      forall n | n in names ensures Less(name, n) || Less(n, name) {
        LessIsTotal(name, n);
      }
      InsertKeepsSorted(Less, name, names);
      InsertedElements(name, names);
    }
  }

  lemma InsertedElements(name: string, names: seq<string>)
    ensures forall n :: n in Insert(Less, name, names) <==> n in names || n == name
  {
    var next := Insert(Less, name, names);
    assert forall n :: n in next <==> n in multiset(next);
  }

  lemma {:induction false} AddNamesKeepsSorted(names: seq<string>, more: seq<string>)
    requires StrictlySorted(Less, names)
    ensures StrictlySorted(Less, AddNames(names, more))
    ensures forall n :: n in AddNames(names, more) <==> n in names || n in more
    decreases |more|
  {
    if more != [] {
      AddNameKeepsSorted(names, more[0]);
      AddNamesKeepsSorted(AddName(names, more[0]), more[1..]);
      assert more == [more[0]] + more[1..];
    }
  }

  lemma {:induction false} InMissing(ps: seq<Piece>, env: Env)
    ensures forall n :: n in MissingNames(ps, env) <==> Braced(n) in ps && n !in env
  {
    if ps != [] {
      InMissing(ps[1..], env);
      assert ps == [ps[0]] + ps[1..];
    }
  }

  method SubstituteLine(line: string, env: Env, missing0: seq<string>) returns (rendered: string, missing: seq<string>)
    requires StrictlySorted(Less, missing0)
    ensures rendered == RenderLine(ParseLine(line), env)
    ensures StrictlySorted(Less, missing)
    ensures forall n :: n in missing <==> n in missing0 || (Braced(n) in ParseLine(line).pieces && n !in env)
  {
    var (body, ending) := SplitLineEnding(line);
    var text, comment := SplitYamlComment(body);
    var pieces := Pieces(text, 0);
    AddNamesKeepsSorted(missing0, MissingNames(pieces, env));
    InMissing(pieces, env);
    missing := AddNames(missing0, MissingNames(pieces, env));
    rendered := RenderAll(pieces, env);
    rendered := rendered + comment;
    rendered := rendered + ending;
  }

  // The document with one more line.
  lemma OneMoreLine(lines: seq<string>, line: string, env: Env)
    ensures RenderDoc(ParseLines(lines + [line]), env) == RenderDoc(ParseLines(lines), env) + RenderLine(ParseLine(line), env)
    ensures forall p :: HasPiece(ParseLines(lines + [line]), p) <==>
                        HasPiece(ParseLines(lines), p) || p in ParseLine(line).pieces
  {
    ParseLinesSnoc(lines, line);
    RenderDocConcat(ParseLines(lines), [ParseLine(line)], env);
    var one := [ParseLine(line)];
    assert one[1..] == [] && RenderDoc(one, env) == RenderLine(one[0], env);
    assert forall l :: l in ParseLines(lines) + one <==> l in ParseLines(lines) || l == one[0];
  }

  // The two accumulators after these lines.
  ghost predicate Accumulated(lines: seq<string>, env: Env, substituted: string, missing: seq<string>) {
    && substituted == RenderDoc(ParseLines(lines), env)
    && StrictlySorted(Less, missing)
    && forall n :: n in missing <==> HasPiece(ParseLines(lines), Braced(n)) && n !in env
  }

  method AppendLine(ghost before: seq<string>, line: string, env: Env, substituted0: string, missing0: seq<string>)
    returns (substituted: string, missing: seq<string>)
    requires Accumulated(before, env, substituted0, missing0)
    ensures Accumulated(before + [line], env, substituted, missing)
  {
    OneMoreLine(before, line, env);
    substituted, missing := SubstituteLine(line, env, missing0);
    substituted := substituted0 + substituted;
  }

  // The loop over the lines.
  method SubstituteLines(lines: seq<string>, env: Env) returns (substituted: string, missing: seq<string>)
    ensures Accumulated(lines, env, substituted, missing)
  {
    missing, substituted := [], "";
    for i := 0 to |lines|
      invariant Accumulated(lines[..i], env, substituted, missing)
    {
      substituted, missing := AppendLine(lines[..i], lines[i], env, substituted, missing);
      assert lines[..i + 1] == lines[..i] + [lines[i]];
    }
    assert lines[..|lines|] == lines;
  }

  /** The whole substitution. It succeeds exactly when every braced name outside comments is
      set, and then renders the pieces and copies all else; otherwise it reports exactly the
      unset braced names, each once, in ascending order. */
  method SubstituteEnvVars(input: string, env: Env) returns (r: Result<string, seq<string>>)
    ensures r.Ok? <==> forall n | HasPiece(Parse(input), Braced(n)) :: n in env
    ensures r.Ok? ==> r.value == RenderDoc(Parse(input), env)
    ensures r.Err? ==> StrictlySorted(Less, r.error)
    ensures r.Err? ==> forall n :: n in r.error <==> HasPiece(Parse(input), Braced(n)) && n !in env
  {
    var substituted, missing := SubstituteLines(Lines(input), env);
    if missing != [] {
      assert missing[0] in missing;
      return Err(missing);
    }
    return Ok(substituted);
  }

  lemma {:induction false} ParseLinesSnoc(lines: seq<string>, line: string)
    ensures ParseLines(lines + [line]) == ParseLines(lines) + [ParseLine(line)]
  {
    if lines != [] {
      ParseLinesSnoc(lines[1..], line);
      assert (lines + [line])[1..] == lines[1..] + [line];
    }
  }

  lemma ConcatIsAssociative<T>(a: seq<T>, b: seq<T>, c: seq<T>)
    ensures a + (b + c) == a + b + c
  {
  }

  lemma {:induction false} RenderDocConcat(a: seq<Line>, b: seq<Line>, env: Env)
    ensures RenderDoc(a + b, env) == RenderDoc(a, env) + RenderDoc(b, env)
  {
    if a == [] {
      assert a + b == b;
    } else {
      RenderDocConcat(a[1..], b, env);
      assert (a + b)[0] == a[0] && (a + b)[1..] == a[1..] + b;
      ConcatIsAssociative(RenderLine(a[0], env), RenderDoc(a[1..], env), RenderDoc(b, env));
    }
  }
}
