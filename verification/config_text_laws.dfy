/** Laws of the substitution: nothing is lost, values are never read again, every written
    placeholder is found, and a comment starts at the first hash outside quotes, where any
    apostrophe quotes. */
module ConfigTextLaws {
  import opened Wrappers
  import opened ConfigText

  // ---- parsing is lossless ----

  lemma {:induction false} PiecesPrintBack(s: string, i: nat)
    requires i <= |s|
    ensures PrintAll(Pieces(s, i)) == s[i..]
    decreases |s| - i
  {
    if i < |s| {
      var (p, e) := Take(s, i);
      TakePrints(s, i);
      PiecesPrintBack(s, e);
      PrintFirst(p, Pieces(s, e));
      SplitHere(s, i, e);
    }
  }

  lemma PrintFirst(p: Piece, ps: seq<Piece>)
    ensures PrintAll([p] + ps) == Print(p) + PrintAll(ps)
  {
    assert ([p] + ps)[0] == p && ([p] + ps)[1..] == ps;
  }

  lemma SplitHere(s: string, i: nat, e: nat)
    requires i <= e <= |s|
    ensures s[i..] == s[i..e] + s[e..]
  {
  }

  function Join(lines: seq<string>): string {
    if lines == [] then "" else lines[0] + Join(lines[1..])
  }

  lemma {:induction false} LinesJoin(s: string)
    ensures Join(Lines(s)) == s
    decreases |s|
  {
    if s != [] {
      var line, rest := s[..LineEnd(s)], s[LineEnd(s)..];
      assert Lines(s) == [line] + Lines(rest);
      LinesJoin(rest);
    }
  }

  lemma {:induction false} ParsedLinesPrintBack(lines: seq<string>)
    ensures PrintDoc(ParseLines(lines)) == Join(lines)
  {
    if lines != [] {
      ParsedLinesPrintBack(lines[1..]);
      LinePrintsBack(lines[0]);
    }
  }

  lemma LinePrintsBack(line: string)
    ensures PrintLine(ParseLine(line)) == line
  {
    var (body, ending) := SplitLineEnding(line);
    var k := CommentStart(body, 0);
    PiecesPrintBack(body[..k], 0);
    assert body[..k][0..] == body[..k];
    assert body == body[..k] + body[k..];
  }

  /** Every configuration text parses into pieces, comments and line endings that print back to
      exactly that text. */
  lemma ParsePrintsBack(input: string)
    ensures PrintDoc(Parse(input)) == input
  {
    ParsedLinesPrintBack(Lines(input));
    LinesJoin(input);
  }

  // ---- identity ----

  function NameOf(p: Piece): Option<string> {
    match p
    case Literal(_) => None
    case Braced(name) => Some(name)
    case Bare(_, name) => Some(name)
  }

  ghost predicate NothingSet(doc: seq<Line>, env: Env) {
    forall p | HasPiece(doc, p) && NameOf(p).Some? :: NameOf(p).value !in env
  }

  lemma {:induction false} UnsetPiecesRenderAsPrinted(ps: seq<Piece>, env: Env)
    requires forall p | p in ps && NameOf(p).Some? :: NameOf(p).value !in env
    ensures RenderAll(ps, env) == PrintAll(ps)
  {
    if ps != [] {
      assert ps[0] in ps && forall p | p in ps[1..] :: p in ps;
      UnsetPiecesRenderAsPrinted(ps[1..], env);
    }
  }

  lemma {:induction false} UnsetDocRendersAsPrinted(doc: seq<Line>, env: Env)
    requires NothingSet(doc, env)
    ensures RenderDoc(doc, env) == PrintDoc(doc)
  {
    if doc != [] {
      assert doc[0] in doc && forall l | l in doc[1..] :: l in doc;
      assert forall p | p in doc[0].pieces :: HasPiece(doc, p);
      assert forall p | HasPiece(doc[1..], p) :: HasPiece(doc, p);
      UnsetPiecesRenderAsPrinted(doc[0].pieces, env);
      UnsetDocRendersAsPrinted(doc[1..], env);
    }
  }

  /** Without a placeholder whose name is set, the text comes out as it went in. */
  lemma NothingSetNothingChanged(input: string, env: Env)
    requires NothingSet(Parse(input), env)
    ensures RenderDoc(Parse(input), env) == input
  {
    UnsetDocRendersAsPrinted(Parse(input), env);
    ParsePrintsBack(input);
  }

  // ---- values are opaque ----

  // The output as a form: fixed text, and holes to be filled with values.
  datatype Slot = Text(text: string) | Hole(name: string)

  function SlotsOf(p: Piece, names: set<string>): seq<Slot> {
    match p
    case Literal(c) => [Text([c])]
    case Braced(name) => if name in names then [Hole(name)] else [Text(Print(p))]
    case Bare(prefix, name) => if name in names then [Text(prefix), Hole(name)] else [Text(Print(p))]
  }

  function FormOf(ps: seq<Piece>, names: set<string>): seq<Slot> {
    if ps == [] then [] else SlotsOf(ps[0], names) + FormOf(ps[1..], names)
  }

  function FormOfLine(line: Line, names: set<string>): seq<Slot> {
    FormOf(line.pieces, names) + [Text(line.comment), Text(line.ending)]
  }

  function Form(doc: seq<Line>, names: set<string>): seq<Slot> {
    if doc == [] then [] else FormOfLine(doc[0], names) + Form(doc[1..], names)
  }

  function FillOne(slot: Slot, env: Env): string {
    match slot
    case Text(t) => t
    case Hole(n) => if n in env then env[n] else ""
  }

  // Every hole has a value.
  ghost predicate Fillable(slots: seq<Slot>, names: set<string>) {
    forall slot | slot in slots && slot.Hole? :: slot.name in names
  }

  function Fill(slots: seq<Slot>, env: Env): string {
    if slots == [] then "" else FillOne(slots[0], env) + Fill(slots[1..], env)
  }

  lemma {:induction false} FillConcat(a: seq<Slot>, b: seq<Slot>, env: Env)
    ensures Fill(a + b, env) == Fill(a, env) + Fill(b, env)
  {
    if a == [] {
      assert a + b == b;
    } else {
      FillConcat(a[1..], b, env);
      var all := a + b;
      assert all[0] == a[0] && all[1..] == a[1..] + b;
      ConcatIsAssociative(FillOne(a[0], env), Fill(a[1..], env), Fill(b, env));
    }
  }

  lemma {:induction false} FormOfFills(ps: seq<Piece>, env: Env)
    ensures Fillable(FormOf(ps, env.Keys), env.Keys)
    ensures Fill(FormOf(ps, env.Keys), env) == RenderAll(ps, env)
  {
    if ps != [] {
      FormOfFills(ps[1..], env);
      SlotsFill(ps[0], env);
      FillConcat(SlotsOf(ps[0], env.Keys), FormOf(ps[1..], env.Keys), env);
    }
  }

  lemma SlotsFill(p: Piece, env: Env)
    ensures Fillable(SlotsOf(p, env.Keys), env.Keys)
    ensures Fill(SlotsOf(p, env.Keys), env) == Render(p, env)
  {
    match p
    case Literal(c) => FillFew(Text([c]), Text(""), env);
    case Braced(name) => FillFew(if name in env then Hole(name) else Text(Print(p)), Text(""), env);
    case Bare(prefix, name) => FillFew(if name in env then Text(prefix) else Text(Print(p)), Hole(name), env);
  }

  lemma FillFew(a: Slot, b: Slot, env: Env)
    ensures Fill([a], env) == FillOne(a, env)
    ensures Fill([a, b], env) == FillOne(a, env) + FillOne(b, env)
  {
    var one, two := [a], [a, b];
    assert one[1..] == [] && two[1..] == [b] && two[1..][1..] == [];
    assert Fill(two[1..], env) == FillOne(b, env);
  }

  lemma FormOfLineFills(line: Line, env: Env)
    ensures Fillable(FormOfLine(line, env.Keys), env.Keys)
    ensures Fill(FormOfLine(line, env.Keys), env) == RenderLine(line, env)
  {
    var head, tail := FormOf(line.pieces, env.Keys), [Text(line.comment), Text(line.ending)];
    FormOfFills(line.pieces, env);
    FillFew(Text(line.comment), Text(line.ending), env);
    FillConcat(head, tail, env);
    ConcatIsAssociative(RenderAll(line.pieces, env), line.comment, line.ending);
  }

  lemma {:induction false} FormFills(doc: seq<Line>, env: Env)
    ensures Fillable(Form(doc, env.Keys), env.Keys)
    ensures Fill(Form(doc, env.Keys), env) == RenderDoc(doc, env)
  {
    if doc != [] {
      FormFills(doc[1..], env);
      FormOfLineFills(doc[0], env);
      FillConcat(FormOfLine(doc[0], env.Keys), Form(doc[1..], env.Keys), env);
    }
  }

  /** Inserted values are never scanned: the form of the output is fixed by the text and by
      which names are set, and each environment with those names merely fills its holes. */
  lemma ValuesAreNeverRescanned(input: string, env: Env, env': Env)
    requires env.Keys == env'.Keys
    ensures var form := Form(Parse(input), env.Keys);
            && Fillable(form, env.Keys)
            && RenderDoc(Parse(input), env) == Fill(form, env)
            && RenderDoc(Parse(input), env') == Fill(form, env')
  {
    FormFills(Parse(input), env);
    FormFills(Parse(input), env');
  }

  // ---- lines are independent ----

  lemma {:induction false} LinesOfConcat(a: string, b: string)
    requires a == [] || a[|a| - 1] == '\n'
    ensures Lines(a + b) == Lines(a) + Lines(b)
    decreases |a|
  {
    if a == [] {
      assert a + b == b;
    } else {
      LineEndOfConcat(a, b);
      var e := LineEnd(a);
      var line, rest := a[..e], a[e..];
      assert (a + b)[..e] == line && (a + b)[e..] == rest + b;
      FirstLine(a + b, line, rest + b);
      FirstLine(a, line, rest);
      LinesOfConcat(rest, b);
      ConcatIsAssociative([line], Lines(rest), Lines(b));
    }
  }

  lemma FirstLine(s: string, line: string, rest: string)
    requires s != [] && line == s[..LineEnd(s)] && rest == s[LineEnd(s)..]
    ensures Lines(s) == [line] + Lines(rest)
  {
  }

  lemma {:induction false} LineEndOfConcat(a: string, b: string)
    requires a != [] && a[|a| - 1] == '\n'
    ensures LineEnd(a + b) == LineEnd(a)
  {
    if a[0] != '\n' {
      assert (a + b)[1..] == a[1..] + b;
      LineEndOfConcat(a[1..], b);
    }
  }

  lemma {:induction false} ParseLinesConcat(a: seq<string>, b: seq<string>)
    ensures ParseLines(a + b) == ParseLines(a) + ParseLines(b)
  {
    if a == [] {
      assert a + b == b;
    } else {
      assert (a + b)[1..] == a[1..] + b;
      ParseLinesConcat(a[1..], b);
    }
  }

  /** Nothing crosses a line: no quote, comment or placeholder opened before a line break
      affects what follows it. */
  lemma LinesAreIndependent(a: string, b: string, env: Env)
    requires a == [] || a[|a| - 1] == '\n'
    ensures Parse(a + b) == Parse(a) + Parse(b)
    ensures RenderDoc(Parse(a + b), env) == RenderDoc(Parse(a), env) + RenderDoc(Parse(b), env)
  {
    LinesOfConcat(a, b);
    ParseLinesConcat(Lines(a), Lines(b));
    RenderDocConcat(Parse(a), Parse(b), env);
  }

  // ---- every written placeholder is found ----

  // Position k is where the scan from i takes a piece (or stops).
  predicate Boundary(s: string, i: nat, k: nat)
    requires i <= |s|
    decreases |s| - i
  {
    i == k || (i < k && i < |s| && Boundary(s, Take(s, i).1, k))
  }

  // Where dollar signs can be inside a taken piece.
  lemma DollarsInside(s: string, i: nat, k: nat)
    requires i < k < |s| && k < Take(s, i).1 && s[k] == '$'
    ensures k == i + 1 && BracedAt(s, i).None? && NameAt(s, i + 2).Some?
  {
  }

  lemma {:induction false} BracedIsABoundary(s: string, i: nat, k: nat)
    requires i <= k < |s| && BracedAt(s, k).Some?
    ensures Boundary(s, i, k)
    decreases k - i
  {
    if i < k {
      var e := Take(s, i).1;
      if k < e {
        DollarsInside(s, i, k);
      }
      BracedIsABoundary(s, e, k);
    }
  }

  lemma {:induction false} BoundaryIsTaken(s: string, i: nat, k: nat)
    requires i <= k < |s| && Boundary(s, i, k)
    ensures Take(s, k).0 in Pieces(s, i)
    decreases |s| - i
  {
    if i < k {
      BoundaryIsTaken(s, Take(s, i).1, k);
    }
  }

  // A braced placeholder is written at k.
  predicate WrittenAt(s: string, k: nat, name: string) {
    k <= |s| && ("${" + name + "}") <= s[k..]
  }

  predicate IsName(name: string) {
    name != "" && IsNameStart(name[0]) && forall c | c in name :: IsNameChar(c)
  }

  lemma {:induction false} NameEndsWhere(s: string, i: nat, e: nat)
    requires i <= e < |s| && !IsNameChar(s[e]) && forall k | i <= k < e :: IsNameChar(s[k])
    ensures NameEnd(s, i) == e
    decreases e - i
  {
    if i < e {
      NameEndsWhere(s, i + 1, e);
    }
  }

  lemma WrittenCharacters(s: string, k: nat, name: string)
    requires WrittenAt(s, k, name)
    ensures k + |name| + 3 <= |s|
    ensures s[k] == '$' && s[k + 1] == '{' && s[k + 2 + |name|] == '}'
    ensures forall j | 0 <= j < |name| :: s[k + 2 + j] == name[j]
  {
    var text := "${" + name + "}";
    assert |text| == |name| + 3 && text <= s[k..];
    assert forall j | 0 <= j < |text| :: s[k + j] == s[k..][j] == text[j];
    forall j | 0 <= j < |name| ensures s[k + 2 + j] == name[j] {
      assert text[2 + j] == name[j];
    }
  }

  lemma WrittenIsBraced(s: string, k: nat, name: string)
    requires WrittenAt(s, k, name) && IsName(name)
    ensures k < |s| && BracedAt(s, k).Some? && Take(s, k) == (Braced(name), BracedAt(s, k).value)
  {
    var e := k + 2 + |name|;
    WrittenCharacters(s, k, name);
    forall j | k + 3 <= j < e ensures IsNameChar(s[j]) {
      assert s[j] == name[j - k - 2] && name[j - k - 2] in name;
    }
    NameEndsWhere(s, k + 3, e);
    assert s[k + 2..e] == name;
  }

  lemma {:induction false} BracedIsWritten(s: string, i: nat, name: string)
    requires i <= |s| && Braced(name) in Pieces(s, i)
    ensures IsName(name) && exists k | i <= k :: WrittenAt(s, k, name)
    decreases |s| - i
  {
    var (p, e) := Take(s, i);
    if p == Braced(name) {
      TakePrints(s, i);
      assert s[i..e] == "${" + name + "}" && s[i..e] <= s[i..];
      assert WrittenAt(s, i, name);
      assert name == s[i + 2..e - 1];
    } else {
      BracedIsWritten(s, e, name);
      var k :| e <= k && WrittenAt(s, k, name);
    }
  }

  /** The names a segment can fail on are exactly those written as "${name}" anywhere in it,
      whatever stands around them. */
  lemma EveryWrittenNameIsFound(s: string, name: string)
    ensures Braced(name) in Pieces(s, 0) <==> IsName(name) && exists k :: WrittenAt(s, k, name)
  {
    if Braced(name) in Pieces(s, 0) {
      BracedIsWritten(s, 0, name);
    }
    if IsName(name) && exists k :: WrittenAt(s, k, name) {
      var k :| WrittenAt(s, k, name);
      WrittenIsBraced(s, k, name);
      BracedIsABoundary(s, 0, k);
      BoundaryIsTaken(s, 0, k);
    }
  }

  // ---- bare placeholders ----

  // "$NAME" is written at k.
  predicate BareWrittenAt(s: string, k: nat) {
    k < |s| && s[k] == '$' && NameAt(s, k + 1).Some?
  }

  // What stands before k lets a bare placeholder start there.
  predicate MayPrecede(s: string, k: nat)
    requires k < |s|
  {
    k == 0 || IsPrefixChar(s[k - 1])
  }

  // The scan takes the bare placeholder whose dollar sign is at k.
  ghost predicate BareTakenAt(s: string, k: nat) {
    exists i: nat | i < |s| && Boundary(s, 0, i) :: IsBareFor(s, i, k)
  }

  predicate IsBareFor(s: string, i: nat, k: nat)
    requires i < |s|
  {
    var p := Take(s, i).0;
    p.Bare? && i + |p.prefix| == k
  }

  // Where the scan would take the bare placeholder written at k.
  function BareStart(k: nat): nat {
    if k == 0 then 0 else k - 1
  }

  lemma BareTakenAtItsStart(s: string, k: nat)
    requires BareWrittenAt(s, k) && MayPrecede(s, k)
    ensures Take(s, BareStart(k)).0 == Bare(if k == 0 then "" else [s[k - 1]], s[k + 1..NameAt(s, k + 1).value])
  {
  }

  // A braced placeholder ends right before k.
  ghost predicate BracedEndsAt(s: string, k: nat) {
    exists j: nat :: BracedAt(s, j) == Some(k)
  }

  // Only the closing brace of a braced placeholder can be a prefix character inside a piece.
  lemma PrefixInside(s: string, i: nat, k: nat)
    requires BareWrittenAt(s, k) && MayPrecede(s, k) && i < k - 1 < Take(s, i).1
    ensures BracedEndsAt(s, k)
  {
    var e, c := Take(s, i).1, s[k - 1];
    if BracedAt(s, i).Some? {
      assert k - 1 != i + 1 ==> k - 1 == e - 1 || IsNameChar(c);
    }
  }

  lemma {:induction false} BareIsABoundary(s: string, i: nat, k: nat)
    requires BareWrittenAt(s, k) && MayPrecede(s, k) && i <= BareStart(k) && !BracedEndsAt(s, k)
    ensures Boundary(s, i, BareStart(k))
    decreases k - i
  {
    if i < BareStart(k) {
      if BareStart(k) < Take(s, i).1 {
        PrefixInside(s, i, k);
      }
      BareIsABoundary(s, Take(s, i).1, k);
    }
  }

  lemma {:induction false} PiecesDoNotOverlap(s: string, i: nat, j: nat)
    requires i <= j < |s| && Boundary(s, i, j)
    ensures forall m | j < m < Take(s, j).1 :: !Boundary(s, i, m)
    ensures Boundary(s, i, Take(s, j).1)
    decreases |s| - i
  {
    if i < j {
      PiecesDoNotOverlap(s, Take(s, i).1, j);
    }
  }

  // The dollar sign of a bare placeholder is at a boundary, or the second character of its piece.
  lemma {:induction false} DollarIsABoundary(s: string, i: nat, k: nat)
    requires BareWrittenAt(s, k) && i <= k
    ensures Boundary(s, i, k) || (i < k && Boundary(s, i, k - 1) && IsBareFor(s, k - 1, k))
    decreases k - i
  {
    if i < k {
      var e := Take(s, i).1;
      if e <= k {
        DollarIsABoundary(s, e, k);
      } else {
        DollarsInside(s, i, k);
      }
    }
  }

  // A taken bare placeholder has its prefix in front of it.
  lemma TakenHasItsPrefix(s: string, i: nat, k: nat)
    requires BareWrittenAt(s, k) && i < |s| && IsBareFor(s, i, k)
    ensures i == BareStart(k) && MayPrecede(s, k) && i <= k < Take(s, i).1
  {
  }

  lemma LiteralDollar(s: string, k: nat)
    requires BareWrittenAt(s, k)
    ensures k > 0 ==> Take(s, k).0 == Literal('$')
  {
  }

  /** A written "$NAME" is taken exactly if it stands at the start of the segment or behind a
      character that is no dollar sign and no part of a name, and no braced placeholder ends
      right before it. Behind another bare placeholder, as in "$A$B", or behind a braced one, as
      in "${A}$B", its dollar sign is literal text. */
  lemma BareIsTakenIff(s: string, k: nat)
    requires BareWrittenAt(s, k)
    ensures BareTakenAt(s, k) <==> MayPrecede(s, k) && !BracedEndsAt(s, k)
    ensures BareTakenAt(s, k) ==> Boundary(s, 0, BareStart(k)) && Take(s, BareStart(k)).0
                                  == Bare(if k == 0 then "" else [s[k - 1]], s[k + 1..NameAt(s, k + 1).value])
    ensures !BareTakenAt(s, k) ==> Boundary(s, 0, k) && Take(s, k).0 == Literal('$')
  {
    if MayPrecede(s, k) && !BracedEndsAt(s, k) {
      BareIsABoundary(s, 0, k);
      BareTakenAtItsStart(s, k);
      assert IsBareFor(s, BareStart(k), k);
    }
    if BareTakenAt(s, k) {
      TakenIsAllowed(s, k);
      BareTakenAtItsStart(s, k);
    } else {
      DollarIsABoundary(s, 0, k);
      LiteralDollar(s, k);
    }
  }

  lemma TakenIsAllowed(s: string, k: nat)
    requires BareWrittenAt(s, k) && BareTakenAt(s, k)
    ensures MayPrecede(s, k) && !BracedEndsAt(s, k) && Boundary(s, 0, BareStart(k))
  {
    var i: nat :| i < |s| && Boundary(s, 0, i) && IsBareFor(s, i, k);
    TakenHasItsPrefix(s, i, k);
    if BracedEndsAt(s, k) {
      var j: nat :| BracedAt(s, j) == Some(k);
      BracedIsABoundary(s, 0, j);
      PiecesDoNotOverlap(s, 0, j);
    }
  }

  /** The shortest instances of the two shapes. */
  lemma BareBehindAPlaceholder()
    ensures BareWrittenAt("$A$B", 2) && !BareTakenAt("$A$B", 2)
    ensures BareWrittenAt("${A}$B", 4) && MayPrecede("${A}$B", 4) && !BareTakenAt("${A}$B", 4)
  {
    var s, t := "$A$B", "${A}$B";
    assert |s| == 4 && s[1] == 'A' && s[2] == '$' && s[3] == 'B';
    assert |t| == 6 && t[0] == '$' && t[1] == '{' && t[2] == 'A' && t[3] == '}' && t[4] == '$' && t[5] == 'B';
    BareIsTakenIff(s, 2);
    assert BracedAt(t, 0) == Some(4);
    BareIsTakenIff(t, 4);
  }

  // ---- comments ----

  // Position k is outside quotes, reading on from such a position i.
  predicate Outside(s: string, i: nat, k: nat)
    decreases |s| - i
  {
    i == k || (i < k && i < |s| && Outside(s, Skip(s, i), k))
  }

  /** The comment starts at the first "#" that is outside quotes and stands at the start of the
      line or after white space; without one, there is no comment. */
  lemma {:induction false} CommentIsFirstOutsideQuotes(s: string, i: nat)
    requires i <= |s|
    ensures var k := CommentStart(s, i);
            && (k < |s| ==> i <= k && Outside(s, i, k) && StartsComment(s, k))
            && forall j | i <= j < k && j < |s| && Outside(s, i, j) :: !StartsComment(s, j)
    decreases |s| - i
  {
    if i < |s| && !StartsComment(s, i) {
      var next := Skip(s, i);
      if next <= |s| {
        CommentIsFirstOutsideQuotes(s, next);
      }
      forall j | i <= j < CommentStart(s, i) && j < |s| && Outside(s, i, j) ensures !StartsComment(s, j) {
        assert j != i ==> Outside(s, next, j) && next <= j;
      }
    }
  }

  lemma {:induction false} NoCommentBefore(s: string, i: nat, k: nat)
    requires i <= k <= |s| && Outside(s, i, k)
    requires forall j | i <= j < k && Outside(s, i, j) :: !StartsComment(s, j)
    ensures CommentStart(s, i) == CommentStart(s, k)
    decreases |s| - i
  {
    if i < k {
      assert Outside(s, i, i);
      forall j | Skip(s, i) <= j < k && Outside(s, Skip(s, i), j) ensures !StartsComment(s, j) {
        assert Outside(s, i, j);
      }
      NoCommentBefore(s, Skip(s, i), k);
    }
  }

  lemma {:induction false} QuoteRunsOn(s: string, i: nat)
    requires i <= |s| && forall j | i <= j < |s| :: s[j] != '\''
    ensures CloseSingle(s, i) == |s|
    decreases |s| - i
  {
    if i < |s| {
      QuoteRunsOn(s, i + 1);
    }
  }

  /** An apostrophe outside quotes with no other one behind it hides every comment of the line,
      wherever it stands: in YAML it quotes nothing inside a plain scalar. */
  lemma LastApostropheHidesComments(s: string, k: nat)
    requires k < |s| && s[k] == '\'' && Outside(s, 0, k) && forall j | k < j < |s| :: s[j] != '\''
    requires forall j | 0 <= j < k && Outside(s, 0, j) :: !StartsComment(s, j)
    ensures CommentStart(s, 0) == |s|
  {
    NoCommentBefore(s, 0, k);
    QuoteRunsOn(s, k + 1);
  }

  /** For instance this line has no comment, and so it needs X to be set. */
  lemma ApostropheHidesComment()
    ensures var s := "it's # ${X}";
            StartsComment(s, 5) && CommentStart(s, 0) == |s| == 11 && Braced("X") in Pieces(s, 0)
  {
    var s, x := "it's # ${X}", "X";
    assert |s| == 11 && s[0] == 'i' && s[1] == 't' && s[2] == '\'' && s[4] == ' ' && s[5] == '#';
    assert Skip(s, 0) == 1 && Skip(s, 1) == 2 && Outside(s, 1, 2) && Outside(s, 0, 2);
    LastApostropheHidesComments(s, 2);
    assert s[7..] == "${" + x + "}" && WrittenAt(s, 7, x) && IsName(x);
    EveryWrittenNameIsFound(s, x);
  }
}
