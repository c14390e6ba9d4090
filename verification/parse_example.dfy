/**
 * The parser on the template of the parser's test (test/parser_test.rs:6-37): a
 * declaration, a header, markup, a loop in code blocks and a print block over ten
 * lines parse to the fourteen blocks that test lists, in order, with their line stamps.
 *
 * The template is written as the fourteen pieces its blocks are read from, joined.
 * A block is read from its piece the same way wherever the piece sits, so each step
 * of the parse is proved on one short piece and lifted into the whole text.
 */
module ParseExample {
  import opened Wrappers
  import opened Blocks
  import opened Scanning
  import opened ScannerProperties
  import opened Templates
  import opened Parsing

  /** The pieces one after the other. */
  function Join(ps: seq<string>): string {
    if ps == [] then [] else Join(ps[..|ps| - 1]) + ps[|ps| - 1]
  }

  lemma {:induction false} JoinSplit(ps: seq<string>, m: nat)
    requires m <= |ps|
    ensures Join(ps) == Join(ps[..m]) + Join(ps[m..])
    decreases |ps|
  {
    if m == |ps| {
      assert ps[..m] == ps && ps[m..] == [];
    } else {
      var n := |ps|;
      JoinSplit(ps[..n - 1], m);
      assert ps[..n - 1][..m] == ps[..m];
      assert ps[..n - 1][m..] == ps[m..][..|ps[m..]| - 1];
      assert ps[m..][|ps[m..]| - 1] == ps[n - 1];
    }
  }

  /** The pieces up to m + 1 are those up to m followed by piece m. */
  lemma JoinNext(ps: seq<string>, m: nat)
    requires m < |ps|
    ensures Join(ps[..m + 1]) == Join(ps[..m]) + ps[m]
  {
    assert ps[..m + 1][..m] == ps[..m];
  }

  /** Where piece m sits: after the pieces before it and before the pieces after it. */
  lemma JoinAround(ps: seq<string>, m: nat)
    requires m < |ps|
    ensures Join(ps) == Join(ps[..m]) + ps[m] + Join(ps[m + 1..])
    ensures Join(ps[..m + 1]) == Join(ps[..m]) + ps[m]
  {
    JoinSplit(ps, m + 1);
    JoinNext(ps, m);
  }

  // ----- The four kinds of piece -----

  /** A non-header tag with a single '%' after its first content character: its "%>". */
  ghost predicate TagPiece(w: string) {
    6 <= |w| && w[0] == '<' && w[1] == '%' && w[2] != '%' &&
    (forall k | 4 <= k < |w| - 2 :: w[k] != '%') && w[|w| - 2] == '%' && w[|w| - 1] == '>'
  }

  /** What a tag piece's block holds: the text between the markers, without '!' or '='. */
  function TagContent(w: string): string
    requires 6 <= |w|
  {
    if w[2] in {'!', '='} then w[3..|w| - 2] else w[2..|w| - 2]
  }

  /** A header with no '%' in its content closed by "%%>". */
  ghost predicate HeaderPiece(w: string) {
    7 <= |w| && w[0] == '<' && w[1] == '%' && w[2] == '%' &&
    (forall k | 4 <= k < |w| - 3 :: w[k] != '%') && w[|w| - 3] == '%' && w[|w| - 1] == '>'
  }

  /** Text that does not open with '<' and holds no '<'. */
  ghost predicate TextPiece(w: string) {
    1 <= |w| && w[0] != '<' && forall k | 1 <= k < |w| :: w[k] != '<'
  }

  /** Text that opens with '<' not followed by '%' and holds no other '<'. */
  ghost predicate LtPiece(w: string) {
    2 <= |w| && w[0] == '<' && w[1] != '%' && forall k | 2 <= k < |w| :: w[k] != '<'
  }

  /** A run of text ends where the next piece opens with '<', or at the end. */
  ghost predicate EndsText(ps: seq<string>, m: nat) {
    m + 1 == |ps| || (m + 1 < |ps| && 1 <= |ps[m + 1]| && ps[m + 1][0] == '<')
  }

  // ----- A piece scans the same way inside any text -----

  lemma SliceAt(s: string, i: nat, w: string, a: nat, b: nat)
    requires a <= b <= |w| && i + |w| <= |s|
    requires s[i..i + |w|] == w
    ensures s[i + a..i + b] == w[a..b]
  {
    forall k | 0 <= k < b - a ensures s[i + a..i + b][k] == w[a..b][k] {
      assert s[i + (a + k)] == w[a + k];
    }
  }

  /** What the scanner keeps of a tag piece found at i is what the piece's block holds. */
  lemma TagBlockAt(s: string, i: nat, w: string, j: nat)
    requires TagPiece(w) && i + |w| <= |s| && j == i + |w| - 2
    requires s[i..i + |w|] == w
    ensures Block(TagClass(s[i + 2]), if s[i + 2] in {'!', '='} then s[i + 3..j] else s[i + 2..j], Pos(LineAt(s, j + 2)))
         == Block(TagClass(w[2]), TagContent(w), Pos(LineAt(s, i + |w|)))
  {
    assert s[i + 2] == w[2];
    if w[2] in {'!', '='} {
      SliceAt(s, i, w, 3, |w| - 2);
    } else {
      SliceAt(s, i, w, 2, |w| - 2);
    }
  }

  /** A tag piece found at i in any text scans to its block. */
  lemma TagAt(s: string, i: nat, w: string)
    requires TagPiece(w) && i + |w| <= |s|
    requires s[i..i + |w|] == w
    ensures ScanFrom(s, i) == Scanned(Some(Block(TagClass(w[2]), TagContent(w), Pos(LineAt(s, i + |w|)))), i + |w|)
  {
    var j := i + |w| - 2;
    TagCharsAt(s, i, w);
    TagBlockAt(s, i, w, j);
    TagScanPlain(s, i, j);
    SameScan(s, i, Block(TagClass(s[i + 2]), if s[i + 2] in {'!', '='} then s[i + 3..j] else s[i + 2..j], Pos(LineAt(s, j + 2))),
             Block(TagClass(w[2]), TagContent(w), Pos(LineAt(s, i + |w|))), j + 2, i + |w|);
  }

  /** Equal blocks and cursors: the same scan result, whichever way it is written. */
  lemma SameScan(s: string, i: nat, b1: Block, b2: Block, n1: nat, n2: nat)
    requires i <= |s| && ScanFrom(s, i) == Scanned(Some(b1), n1) && b1 == b2 && n1 == n2
    ensures ScanFrom(s, i) == Scanned(Some(b2), n2)
  {
  }

  /** The characters of a tag piece found at i, where the scanner looks for them. */
  lemma TagCharsAt(s: string, i: nat, w: string)
    requires TagPiece(w) && i + |w| <= |s|
    requires s[i..i + |w|] == w
    ensures s[i] == '<' && s[i + 1] == '%' && s[i + 2] == w[2]
    ensures forall k | i + 4 <= k < i + |w| - 2 :: s[k] != '%'
    ensures s[i + |w| - 2] == '%' && s[i + |w| - 1] == '>'
  {
    forall k | i + 4 <= k < i + |w| - 2 ensures s[k] != '%' {
      assert s[i + (k - i)] == w[k - i];
    }
  }

  /** A header piece found at i in any text scans to its block. */
  lemma HeaderAt(s: string, i: nat, w: string)
    requires HeaderPiece(w) && i + |w| <= |s|
    requires s[i..i + |w|] == w
    ensures ScanFrom(s, i) == Scanned(Some(Block(Header, w[3..|w| - 3], Pos(LineAt(s, i + |w|)))), i + |w|)
  {
    var j := i + |w| - 3;
    HeaderCharsAt(s, i, w);
    SliceAt(s, i, w, 3, |w| - 3);
    assert Block(Header, s[i + 3..j], Pos(LineAt(s, j + 3))) == Block(Header, w[3..|w| - 3], Pos(LineAt(s, i + |w|)));
    HeaderScanPlain(s, i, j);
    SameScan(s, i, Block(Header, s[i + 3..j], Pos(LineAt(s, j + 3))), Block(Header, w[3..|w| - 3], Pos(LineAt(s, i + |w|))), j + 3, i + |w|);
  }

  /** The characters of a header piece found at i, where the scanner looks for them. */
  lemma HeaderCharsAt(s: string, i: nat, w: string)
    requires HeaderPiece(w) && i + |w| <= |s|
    requires s[i..i + |w|] == w
    ensures s[i] == '<' && s[i + 1] == '%' && s[i + 2] == '%'
    ensures forall k | i + 4 <= k < i + |w| - 3 :: s[k] != '%'
    ensures s[i + |w| - 3] == '%' && s[i + |w| - 1] == '>'
  {
    forall k | i + 4 <= k < i + |w| - 3 ensures s[k] != '%' {
      assert s[i + (k - i)] == w[k - i];
    }
  }

  /** A text piece found at i, followed by '<' or the end, scans to one Text block. */
  lemma TextAt(s: string, i: nat, w: string)
    requires TextPiece(w) && i + |w| <= |s|
    requires s[i..i + |w|] == w
    requires i + |w| == |s| || s[i + |w|] == '<'
    ensures ScanFrom(s, i) == Scanned(Some(Block(Text, w, Pos(LineAt(s, i + |w|)))), i + |w|)
  {
    RunCharsAt(s, i, w, 1);
    SliceAt(s, i, w, 0, |w|);
    assert w[0..|w|] == w;
    PlainRunScan(s, i, i + |w|);
  }

  /** A piece opening with '<' but no tag, followed by '<' or the end, scans to one Text block. */
  lemma LtAt(s: string, i: nat, w: string)
    requires LtPiece(w) && i + |w| <= |s|
    requires s[i..i + |w|] == w
    requires i + |w| == |s| || s[i + |w|] == '<'
    ensures ScanFrom(s, i) == Scanned(Some(Block(Text, w, Pos(LineAt(s, i + |w|)))), i + |w|)
  {
    RunCharsAt(s, i, w, 2);
    SliceAt(s, i, w, 0, |w|);
    assert w[0..|w|] == w;
    LtRunScan(s, i, i + |w|);
  }

  /** The first characters of a text piece found at i, and no '<' after its first d. */
  lemma RunCharsAt(s: string, i: nat, w: string, d: nat)
    requires 1 <= d <= |w| && i + |w| <= |s|
    requires s[i..i + |w|] == w
    requires forall k | d <= k < |w| :: w[k] != '<'
    ensures s[i] == w[0] && (d == 2 ==> s[i + 1] == w[1])
    ensures forall k | i + d <= k < i + |w| :: s[k] != '<'
  {
    forall k | i + d <= k < i + |w| ensures s[k] != '<' {
      assert s[i + (k - i)] == w[k - i];
    }
  }

  // ----- One parse step per piece -----

  /** Where parsing the joined pieces stands before piece m. */
  function At(ps: seq<string>, m: nat): nat
    requires m <= |ps|
  {
    |Join(ps[..m])|
  }

  /** The line stamp of the block read from piece m. */
  function LineAfter(ps: seq<string>, m: nat): int
    requires m < |ps|
  {
    1 + Newlines(Join(ps[..m + 1]))
  }

  /** Parsing from piece m: the block read from it, then the parse from the next piece. */
  ghost predicate StepsTo(ps: seq<string>, m: nat, b: Block)
    requires m < |ps|
  {
    JoinAt(ps, m);
    JoinAt(ps, m + 1);
    ParseFrom(Join(ps), At(ps, m)) == [b] + ParseFrom(Join(ps), At(ps, m + 1))
  }

  lemma JoinAt(ps: seq<string>, m: nat)
    requires m <= |ps|
    ensures At(ps, m) <= |Join(ps)|
  {
    JoinSplit(ps, m);
  }

  /** The joined pieces open with the pieces before m. */
  lemma PrefixAt(ps: seq<string>, m: nat)
    requires m <= |ps|
    ensures At(ps, m) <= |Join(ps)| && Join(ps)[..At(ps, m)] == Join(ps[..m])
  {
    JoinSplit(ps, m);
  }

  /** Piece m inside the joined pieces: where it starts and ends, and the line after it. */
  lemma PieceAt(ps: seq<string>, m: nat)
    requires m < |ps|
    ensures At(ps, m) + |ps[m]| == At(ps, m + 1) <= |Join(ps)|
    ensures Join(ps)[At(ps, m)..At(ps, m) + |ps[m]|] == ps[m]
    ensures LineAt(Join(ps), At(ps, m + 1)) == LineAfter(ps, m)
  {
    JoinAround(ps, m);
    var p, w, t := Join(ps[..m]), ps[m], Join(ps[m + 1..]);
    assert (p + w + t)[|p|..|p| + |w|] == w;
    PrefixAt(ps, m + 1);
  }

  /** After a piece that ends a run of text comes '<' or the end of the joined pieces. */
  lemma NextAt(ps: seq<string>, m: nat)
    requires m < |ps| && EndsText(ps, m)
    ensures At(ps, m + 1) <= |Join(ps)|
    ensures At(ps, m + 1) == |Join(ps)| || Join(ps)[At(ps, m + 1)] == '<'
  {
    JoinAround(ps, m);
    NextOpensWithLt(ps, m);
    var p, t := Join(ps[..m + 1]), Join(ps[m + 1..]);
    assert t != [] ==> (p + t)[|p|] == t[0];
  }

  lemma TagStep(ps: seq<string>, m: nat)
    requires m < |ps| && TagPiece(ps[m])
    ensures StepsTo(ps, m, Block(TagClass(ps[m][2]), TagContent(ps[m]), Pos(LineAfter(ps, m))))
  {
    PieceAt(ps, m);
    TagAt(Join(ps), At(ps, m), ps[m]);
    ParseStep(Join(ps), At(ps, m), At(ps, m + 1));
  }

  lemma HeaderStep(ps: seq<string>, m: nat)
    requires m < |ps| && HeaderPiece(ps[m])
    ensures StepsTo(ps, m, Block(Header, ps[m][3..|ps[m]| - 3], Pos(LineAfter(ps, m))))
  {
    PieceAt(ps, m);
    HeaderAt(Join(ps), At(ps, m), ps[m]);
    ParseStep(Join(ps), At(ps, m), At(ps, m + 1));
  }

  lemma NextOpensWithLt(ps: seq<string>, m: nat)
    requires m < |ps| && EndsText(ps, m)
    ensures var t := Join(ps[m + 1..]); t == [] || t[0] == '<'
  {
    if m + 1 < |ps| {
      var rest := ps[m + 1..];
      JoinSplit(rest, 1);
      assert rest[..1] == [ps[m + 1]];
      assert [ps[m + 1]][..0] == [];
      assert Join([ps[m + 1]]) == ps[m + 1];
    } else {
      assert ps[m + 1..] == [];
    }
  }

  lemma TextStep(ps: seq<string>, m: nat)
    requires m < |ps| && TextPiece(ps[m]) && EndsText(ps, m)
    ensures StepsTo(ps, m, Block(Text, ps[m], Pos(LineAfter(ps, m))))
  {
    PieceAt(ps, m);
    NextAt(ps, m);
    TextAt(Join(ps), At(ps, m), ps[m]);
    ParseStep(Join(ps), At(ps, m), At(ps, m + 1));
  }

  lemma LtStep(ps: seq<string>, m: nat)
    requires m < |ps| && LtPiece(ps[m]) && EndsText(ps, m)
    ensures StepsTo(ps, m, Block(Text, ps[m], Pos(LineAfter(ps, m))))
  {
    PieceAt(ps, m);
    NextAt(ps, m);
    LtAt(Join(ps), At(ps, m), ps[m]);
    ParseStep(Join(ps), At(ps, m), At(ps, m + 1));
  }

  /** The line stamp after piece m counts the newlines of the pieces up to it. */
  lemma LineStep(ps: seq<string>, m: nat)
    requires m < |ps|
    ensures LineAfter(ps, m) == 1 + Newlines(Join(ps[..m])) + Newlines(ps[m])
  {
    JoinAround(ps, m);
    NewlinesAppend(Join(ps[..m]), ps[m]);
  }

  /** Parsing stops at the end of the joined pieces. */
  lemma ParseEnd(ps: seq<string>)
    ensures At(ps, |ps|) == |Join(ps)|
    ensures ParseFrom(Join(ps), At(ps, |ps|)) == []
  {
    assert ps[..|ps|] == ps;
  }

  /** Parsing from piece m reads the blocks bs[m..] when every later piece steps to its block. */
  lemma {:induction false} ParseSteps(ps: seq<string>, bs: seq<Block>, m: nat)
    requires |bs| == |ps| && m <= |ps|
    requires forall n | m <= n < |ps| :: StepsTo(ps, n, bs[n])
    ensures At(ps, m) <= |Join(ps)| && ParseFrom(Join(ps), At(ps, m)) == bs[m..]
    decreases |ps| - m
  {
    JoinAt(ps, m);
    if m == |ps| {
      ParseEnd(ps);
    } else {
      ParseSteps(ps, bs, m + 1);
      assert StepsTo(ps, m, bs[m]);
      assert bs[m..] == [bs[m]] + bs[m + 1..];
    }
  }

  /** The line stamp after piece m is the one after piece m - 1 plus the newlines of piece m. */
  lemma LineAfterNext(ps: seq<string>, m: nat)
    requires 0 < m < |ps|
    ensures LineAfter(ps, m) == LineAfter(ps, m - 1) + Newlines(ps[m])
  {
    LineStep(ps, m);
  }

  lemma LineAfterFirst(ps: seq<string>)
    requires 0 < |ps|
    ensures LineAfter(ps, 0) == 1 + Newlines(ps[0])
  {
    LineStep(ps, 0);
    assert ps[..0] == [];
  }

  /** A text with exactly one newline, at j. */
  lemma OneNewline(w: string, j: nat)
    requires j < |w| && w[j] == '\n'
    requires forall k | 0 <= k < |w| && k != j :: w[k] != '\n'
    ensures Newlines(w) == 1
  {
    LineAtZero(w);
    LineAtSkip(w, 0, j);
    LineAtNext(w, j);
    LineAtSkip(w, j + 1, |w|);
    assert w[..|w|] == w;
  }

  // ----- The pieces of the parser's test template -----

  /** s holds no c. */
  ghost predicate Lacks(s: string, c: char) {
    forall k | 0 <= k < |s| :: s[k] != c
  }

  lemma LacksJoin(a: string, b: string, c: char)
    requires Lacks(a, c) && Lacks(b, c)
    ensures Lacks(a + b, c)
  {
    forall k | 0 <= k < |a + b| ensures (a + b)[k] != c {
      if k >= |a| {
        assert (a + b)[k] == b[k - |a|];
      }
    }
  }

  /** Text c between an opening marker o and a closing marker e. */
  lemma Wrapped(o: string, c: string, e: string)
    requires Lacks(o, '\n') && Lacks(c, '\n') && Lacks(e, '\n')
    ensures forall k | 0 <= k < |c| :: (o + c + e)[|o| + k] == c[k]
    ensures (o + c + e)[|o|..|o| + |c|] == c
    ensures Newlines(o + c + e) == 0
  {
    LacksJoin(o, c, '\n');
    LacksJoin(o + c, e, '\n');
    NoNewlines(o + c + e);
  }

  lemma MarkersLack()
    ensures Lacks("<%!", '\n') && Lacks("<%=", '\n') && Lacks("<%", '\n') && Lacks("<%%", '\n')
    ensures Lacks("%>", '\n') && Lacks("%%>", '\n')
  {
  }

  /** A declaration tag (d is '!') or a print tag (d is '=') around c. */
  lemma MarkedTagOf(d: char, c: string)
    requires d in {'!', '='} && 1 <= |c| && Lacks(c, '%') && Lacks(c, '\n')
    ensures var w := "<%" + [d] + c + "%>";
            TagPiece(w) && w[2] == d && TagContent(w) == c && Newlines(w) == 0
  {
    MarkersLack();
    LacksJoin("<%", [d], '\n');
    Wrapped("<%" + [d], c, "%>");
  }

  /** A code tag around c, which opens with a space. */
  lemma CodeOf(c: string)
    requires 2 <= |c| && c[0] == ' ' && Lacks(c, '%') && Lacks(c, '\n')
    ensures var w := "<%" + c + "%>";
            TagPiece(w) && w[2] == ' ' && TagContent(w) == c && Newlines(w) == 0
  {
    MarkersLack();
    Wrapped("<%", c, "%>");
  }

  /** A header around c. */
  lemma HeaderOf(c: string)
    requires 1 <= |c| && Lacks(c, '%') && Lacks(c, '\n')
    ensures var w := "<%%" + c + "%%>";
            HeaderPiece(w) && w[3..|w| - 3] == c && Newlines(w) == 0
  {
    MarkersLack();
    Wrapped("<%%", c, "%%>");
  }

  /**
   * The signature the template declares, written as two literals: the verifier checks
   * the characters of each short literal, where a single 46-character one is too costly.
   */
  const Signature := " pub fn Template(" + "writer: &mut Writer, i: int) "

  lemma ContentsLack()
    ensures |Signature| == 46 && Lacks(Signature, '%') && Lacks(Signature, '\n')
    ensures Lacks(" use std::io; ", '%') && Lacks(" use std::io; ", '\n')
    ensures Lacks(" for n in range(0, i - 1) { ", '%') && Lacks(" for n in range(0, i - 1) { ", '\n')
    ensures Lacks(" n + 1 ", '%') && Lacks(" n + 1 ", '\n')
    ensures Lacks(" } ", '%') && Lacks(" } ", '\n')
  {
    SignatureLacks();
    LacksJoin(" pub fn Template(", "writer: &mut Writer, i: int) ", '%');
    LacksJoin(" pub fn Template(", "writer: &mut Writer, i: int) ", '\n');
  }

  lemma SignatureLacks()
    ensures Lacks(" pub fn Template(", '%') && Lacks(" pub fn Template(", '\n')
    ensures Lacks("writer: &mut Writer, i: int) ", '%') && Lacks("writer: &mut Writer, i: int) ", '\n')
  {
  }

  lemma NewlineChars(w: string)
    requires w == "\n"
    ensures TextPiece(w) && Newlines(w) == 1
  {
    OneNewline(w, 0);
  }

  lemma MarkupChars(w: string)
    requires w in {"<html>\n", "<p>\n  ", "</p>\n", "</html>\n"}
    ensures LtPiece(w) && Newlines(w) == 1
  {
    if w == "<html>\n" {
      OneNewline(w, 6);
    } else if w == "<p>\n  " {
      OneNewline(w, 3);
    } else if w == "</p>\n" {
      OneNewline(w, 4);
    } else {
      OneNewline(w, 7);
    }
  }

  /** The newlines of each piece of the test template. */
  ghost predicate Counts(ps: seq<string>) {
    |ps| == 14 &&
    Newlines(ps[0]) == 0 && Newlines(ps[1]) == 1 && Newlines(ps[2]) == 0 && Newlines(ps[3]) == 1 &&
    Newlines(ps[4]) == 1 && Newlines(ps[5]) == 0 && Newlines(ps[6]) == 1 && Newlines(ps[7]) == 1 &&
    Newlines(ps[8]) == 0 && Newlines(ps[9]) == 1 && Newlines(ps[10]) == 1 && Newlines(ps[11]) == 0 &&
    Newlines(ps[12]) == 1 && Newlines(ps[13]) == 1
  }

  /** The kind of each piece of the test template. */
  ghost predicate Kinds(ps: seq<string>) {
    |ps| == 14 &&
    TagPiece(ps[0]) && ps[0][2] == '!' && TextPiece(ps[1]) && HeaderPiece(ps[2]) && TextPiece(ps[3]) &&
    LtPiece(ps[4]) && TagPiece(ps[5]) && ps[5][2] == ' ' && TextPiece(ps[6]) && LtPiece(ps[7]) &&
    TagPiece(ps[8]) && ps[8][2] == '=' && TextPiece(ps[9]) && LtPiece(ps[10]) &&
    TagPiece(ps[11]) && ps[11][2] == ' ' && TextPiece(ps[12]) && LtPiece(ps[13])
  }

  /** The blocks the pieces are read into, by their kinds and the test's line stamps. */
  ghost function Reading(ps: seq<string>): seq<Block>
    requires Kinds(ps)
  {
    [Block(Declaration, TagContent(ps[0]), Pos(1)),
     Block(Text, ps[1], Pos(2)),
     Block(Header, ps[2][3..|ps[2]| - 3], Pos(2)),
     Block(Text, ps[3], Pos(3)),
     Block(Text, ps[4], Pos(4)),
     Block(Code, TagContent(ps[5]), Pos(4)),
     Block(Text, ps[6], Pos(5)),
     Block(Text, ps[7], Pos(6)),
     Block(Print, TagContent(ps[8]), Pos(6)),
     Block(Text, ps[9], Pos(7)),
     Block(Text, ps[10], Pos(8)),
     Block(Code, TagContent(ps[11]), Pos(8)),
     Block(Text, ps[12], Pos(9)),
     Block(Text, ps[13], Pos(10))]
  }

  /** What the blocks of the test template hold. */
  ghost predicate Contents(ps: seq<string>) {
    Kinds(ps) &&
    TagContent(ps[0]) == Signature && ps[2][3..|ps[2]| - 3] == " use std::io; " &&
    TagContent(ps[5]) == " for n in range(0, i - 1) { " && TagContent(ps[8]) == " n + 1 " &&
    TagContent(ps[11]) == " } " &&
    ps[1] == "\n" && ps[3] == "\n" && ps[6] == "\n" && ps[9] == "\n" && ps[12] == "\n" &&
    ps[4] == "<html>\n" && ps[7] == "<p>\n  " && ps[10] == "</p>\n" && ps[13] == "</html>\n"
  }

  lemma ReadingExpected(ps: seq<string>)
    requires Contents(ps)
    ensures Reading(ps) == Expected()
  {
  }

  lemma PiecesTags(ps: seq<string>)
    requires ps == Pieces()
    ensures TagPiece(ps[0]) && ps[0][2] == '!' && TagContent(ps[0]) == Signature && Newlines(ps[0]) == 0
    ensures HeaderPiece(ps[2]) && ps[2][3..|ps[2]| - 3] == " use std::io; " && Newlines(ps[2]) == 0
    ensures TagPiece(ps[5]) && ps[5][2] == ' ' && TagContent(ps[5]) == " for n in range(0, i - 1) { "
    ensures TagPiece(ps[8]) && ps[8][2] == '=' && TagContent(ps[8]) == " n + 1 "
    ensures TagPiece(ps[11]) && ps[11][2] == ' ' && TagContent(ps[11]) == " } "
    ensures Newlines(ps[5]) == 0 && Newlines(ps[8]) == 0 && Newlines(ps[11]) == 0
  {
    HeadTags(ps);
    LoopTags(ps);
  }

  lemma HeadTags(ps: seq<string>)
    requires ps == Pieces()
    ensures TagPiece(ps[0]) && ps[0][2] == '!' && TagContent(ps[0]) == Signature && Newlines(ps[0]) == 0
    ensures HeaderPiece(ps[2]) && ps[2][3..|ps[2]| - 3] == " use std::io; " && Newlines(ps[2]) == 0
  {
    ContentsLack();
    MarkedTagOf('!', Signature);
    assert "<%" + ['!'] == "<%!";
    HeaderOf(" use std::io; ");
  }

  lemma LoopTags(ps: seq<string>)
    requires ps == Pieces()
    ensures TagPiece(ps[5]) && ps[5][2] == ' ' && TagContent(ps[5]) == " for n in range(0, i - 1) { "
    ensures TagPiece(ps[8]) && ps[8][2] == '=' && TagContent(ps[8]) == " n + 1 "
    ensures TagPiece(ps[11]) && ps[11][2] == ' ' && TagContent(ps[11]) == " } "
    ensures Newlines(ps[5]) == 0 && Newlines(ps[8]) == 0 && Newlines(ps[11]) == 0
  {
    ContentsLack();
    CodeOf(" for n in range(0, i - 1) { ");
    MarkedTagOf('=', " n + 1 ");
    assert "<%" + ['='] == "<%=";
    CodeOf(" } ");
  }

  lemma PiecesMarkup(ps: seq<string>)
    requires ps == Pieces()
    ensures ps[1] == "\n" && ps[3] == "\n" && ps[6] == "\n" && ps[9] == "\n" && ps[12] == "\n"
    ensures ps[4] == "<html>\n" && ps[7] == "<p>\n  " && ps[10] == "</p>\n" && ps[13] == "</html>\n"
    ensures TextPiece(ps[1]) && Newlines(ps[1]) == 1
    ensures LtPiece(ps[4]) && LtPiece(ps[7]) && LtPiece(ps[10]) && LtPiece(ps[13])
    ensures Newlines(ps[4]) == 1 && Newlines(ps[7]) == 1 && Newlines(ps[10]) == 1 && Newlines(ps[13]) == 1
  {
    NewlineChars(ps[1]);
    MarkupChars(ps[4]);
    MarkupChars(ps[7]);
    MarkupChars(ps[10]);
    MarkupChars(ps[13]);
  }

  lemma PiecesShape(ps: seq<string>)
    requires ps == Pieces()
    ensures Counts(ps) && Contents(ps)
  {
    PiecesTags(ps);
    PiecesMarkup(ps);
  }

  /** The line stamps of the blocks the test expects. */
  ghost predicate Lines(ps: seq<string>) {
    |ps| == 14 &&
    LineAfter(ps, 0) == 1 && LineAfter(ps, 1) == 2 && LineAfter(ps, 2) == 2 && LineAfter(ps, 3) == 3 &&
    LineAfter(ps, 4) == 4 && LineAfter(ps, 5) == 4 && LineAfter(ps, 6) == 5 && LineAfter(ps, 7) == 6 &&
    LineAfter(ps, 8) == 6 && LineAfter(ps, 9) == 7 && LineAfter(ps, 10) == 8 && LineAfter(ps, 11) == 8 &&
    LineAfter(ps, 12) == 9 && LineAfter(ps, 13) == 10
  }

  lemma HeadLines(ps: seq<string>)
    requires Counts(ps)
    ensures LineAfter(ps, 0) == 1 && LineAfter(ps, 1) == 2 && LineAfter(ps, 2) == 2 && LineAfter(ps, 3) == 3
  {
    LineAfterFirst(ps);
    LineAfterNext(ps, 1);
    LineAfterNext(ps, 2);
    LineAfterNext(ps, 3);
  }

  lemma LoopLines(ps: seq<string>)
    requires Counts(ps) && LineAfter(ps, 3) == 3
    ensures LineAfter(ps, 4) == 4 && LineAfter(ps, 5) == 4 && LineAfter(ps, 6) == 5
  {
    LineAfterNext(ps, 4);
    LineAfterNext(ps, 5);
    LineAfterNext(ps, 6);
  }

  lemma ParagraphLines(ps: seq<string>)
    requires Counts(ps) && LineAfter(ps, 6) == 5
    ensures LineAfter(ps, 7) == 6 && LineAfter(ps, 8) == 6 && LineAfter(ps, 9) == 7 && LineAfter(ps, 10) == 8
  {
    LineAfterNext(ps, 7);
    LineAfterNext(ps, 8);
    LineAfterNext(ps, 9);
    LineAfterNext(ps, 10);
  }

  lemma TailLines(ps: seq<string>)
    requires Counts(ps) && LineAfter(ps, 10) == 8
    ensures LineAfter(ps, 11) == 8 && LineAfter(ps, 12) == 9 && LineAfter(ps, 13) == 10
  {
    LineAfterNext(ps, 11);
    LineAfterNext(ps, 12);
    LineAfterNext(ps, 13);
  }

  lemma Step0(ps: seq<string>, n: nat)
    requires n == 0 && Kinds(ps) && LineAfter(ps, 0) == 1
    ensures StepsTo(ps, n, Reading(ps)[n])
  {
    assert Reading(ps)[0] == Block(Declaration, TagContent(ps[0]), Pos(1));
    TagStep(ps, 0);
  }

  lemma Step1(ps: seq<string>, n: nat)
    requires n == 1 && Kinds(ps) && LineAfter(ps, 1) == 2
    ensures StepsTo(ps, n, Reading(ps)[n])
  {
    assert Reading(ps)[1] == Block(Text, ps[1], Pos(2));
    TextStep(ps, 1);
  }

  lemma Step2(ps: seq<string>, n: nat)
    requires n == 2 && Kinds(ps) && LineAfter(ps, 2) == 2
    ensures StepsTo(ps, n, Reading(ps)[n])
  {
    assert Reading(ps)[2] == Block(Header, ps[2][3..|ps[2]| - 3], Pos(2));
    HeaderStep(ps, 2);
  }

  lemma Step3(ps: seq<string>, n: nat)
    requires n == 3 && Kinds(ps) && LineAfter(ps, 3) == 3
    ensures StepsTo(ps, n, Reading(ps)[n])
  {
    assert Reading(ps)[3] == Block(Text, ps[3], Pos(3));
    TextStep(ps, 3);
  }

  lemma Step4(ps: seq<string>, n: nat)
    requires n == 4 && Kinds(ps) && LineAfter(ps, 4) == 4
    ensures StepsTo(ps, n, Reading(ps)[n])
  {
    assert Reading(ps)[4] == Block(Text, ps[4], Pos(4));
    LtStep(ps, 4);
  }

  lemma Step5(ps: seq<string>, n: nat)
    requires n == 5 && Kinds(ps) && LineAfter(ps, 5) == 4
    ensures StepsTo(ps, n, Reading(ps)[n])
  {
    assert Reading(ps)[5] == Block(Code, TagContent(ps[5]), Pos(4));
    TagStep(ps, 5);
  }

  lemma Step6(ps: seq<string>, n: nat)
    requires n == 6 && Kinds(ps) && LineAfter(ps, 6) == 5
    ensures StepsTo(ps, n, Reading(ps)[n])
  {
    assert Reading(ps)[6] == Block(Text, ps[6], Pos(5));
    TextStep(ps, 6);
  }

  lemma Step7(ps: seq<string>, n: nat)
    requires n == 7 && Kinds(ps) && LineAfter(ps, 7) == 6
    ensures StepsTo(ps, n, Reading(ps)[n])
  {
    assert Reading(ps)[7] == Block(Text, ps[7], Pos(6));
    LtStep(ps, 7);
  }

  lemma Step8(ps: seq<string>, n: nat)
    requires n == 8 && Kinds(ps) && LineAfter(ps, 8) == 6
    ensures StepsTo(ps, n, Reading(ps)[n])
  {
    assert Reading(ps)[8] == Block(Print, TagContent(ps[8]), Pos(6));
    TagStep(ps, 8);
  }

  lemma Step9(ps: seq<string>, n: nat)
    requires n == 9 && Kinds(ps) && LineAfter(ps, 9) == 7
    ensures StepsTo(ps, n, Reading(ps)[n])
  {
    assert Reading(ps)[9] == Block(Text, ps[9], Pos(7));
    TextStep(ps, 9);
  }

  lemma Step10(ps: seq<string>, n: nat)
    requires n == 10 && Kinds(ps) && LineAfter(ps, 10) == 8
    ensures StepsTo(ps, n, Reading(ps)[n])
  {
    assert Reading(ps)[10] == Block(Text, ps[10], Pos(8));
    LtStep(ps, 10);
  }

  lemma Step11(ps: seq<string>, n: nat)
    requires n == 11 && Kinds(ps) && LineAfter(ps, 11) == 8
    ensures StepsTo(ps, n, Reading(ps)[n])
  {
    assert Reading(ps)[11] == Block(Code, TagContent(ps[11]), Pos(8));
    TagStep(ps, 11);
  }

  lemma Step12(ps: seq<string>, n: nat)
    requires n == 12 && Kinds(ps) && LineAfter(ps, 12) == 9
    ensures StepsTo(ps, n, Reading(ps)[n])
  {
    assert Reading(ps)[12] == Block(Text, ps[12], Pos(9));
    TextStep(ps, 12);
  }

  lemma Step13(ps: seq<string>, n: nat)
    requires n == 13 && Kinds(ps) && LineAfter(ps, 13) == 10
    ensures StepsTo(ps, n, Reading(ps)[n])
  {
    assert Reading(ps)[13] == Block(Text, ps[13], Pos(10));
    LtStep(ps, 13);
  }

  /** The declaration and the header step to their blocks. */
  lemma HeadSteps(ps: seq<string>)
    requires Kinds(ps) && Lines(ps)
    ensures forall n | 0 <= n < 4 :: StepsTo(ps, n, Reading(ps)[n])
  {
    forall n | 0 <= n < 4 ensures StepsTo(ps, n, Reading(ps)[n]) {
      if n == 0 { Step0(ps, n); }
      else if n == 1 { Step1(ps, n); }
      else if n == 2 { Step2(ps, n); }
      else { Step3(ps, n); }
    }
  }

  /** The "<html>" line and the loop's head step to their blocks. */
  lemma LoopSteps(ps: seq<string>)
    requires Kinds(ps) && Lines(ps)
    ensures forall n | 4 <= n < 7 :: StepsTo(ps, n, Reading(ps)[n])
  {
    forall n | 4 <= n < 7 ensures StepsTo(ps, n, Reading(ps)[n]) {
      if n == 4 { Step4(ps, n); }
      else if n == 5 { Step5(ps, n); }
      else { Step6(ps, n); }
    }
  }

  /** The paragraph steps to its blocks. */
  lemma ParagraphSteps(ps: seq<string>)
    requires Kinds(ps) && Lines(ps)
    ensures forall n | 7 <= n < 11 :: StepsTo(ps, n, Reading(ps)[n])
  {
    forall n | 7 <= n < 11 ensures StepsTo(ps, n, Reading(ps)[n]) {
      if n == 7 { Step7(ps, n); }
      else if n == 8 { Step8(ps, n); }
      else if n == 9 { Step9(ps, n); }
      else { Step10(ps, n); }
    }
  }

  /** The loop's end and the last line step to their blocks. */
  lemma TailSteps(ps: seq<string>)
    requires Kinds(ps) && Lines(ps)
    ensures forall n | 11 <= n < 14 :: StepsTo(ps, n, Reading(ps)[n])
  {
    forall n | 11 <= n < 14 ensures StepsTo(ps, n, Reading(ps)[n]) {
      if n == 11 { Step11(ps, n); }
      else if n == 12 { Step12(ps, n); }
      else { Step13(ps, n); }
    }
  }

  /** The template of the parser's test, as the pieces its blocks are read from. */
  function Pieces(): seq<string> {
    ["<%!" + Signature + "%>", "\n",
     "<%%" + " use std::io; " + "%%>", "\n",
     "<html>\n",
     "<%" + " for n in range(0, i - 1) { " + "%>", "\n",
     "<p>\n  ", "<%=" + " n + 1 " + "%>", "\n",
     "</p>\n", "<%" + " } " + "%>", "\n",
     "</html>\n"]
  }

  /** The blocks the parser's test expects, in order. */
  function Expected(): seq<Block> {
    [Block(Declaration, Signature, Pos(1)),
     Block(Text, "\n", Pos(2)),
     Block(Header, " use std::io; ", Pos(2)),
     Block(Text, "\n", Pos(3)),
     Block(Text, "<html>\n", Pos(4)),
     Block(Code, " for n in range(0, i - 1) { ", Pos(4)),
     Block(Text, "\n", Pos(5)),
     Block(Text, "<p>\n  ", Pos(6)),
     Block(Print, " n + 1 ", Pos(6)),
     Block(Text, "\n", Pos(7)),
     Block(Text, "</p>\n", Pos(8)),
     Block(Code, " } ", Pos(8)),
     Block(Text, "\n", Pos(9)),
     Block(Text, "</html>\n", Pos(10))]
  }

  /** Pieces of the shape of the test template parse to the blocks the test expects. */
  lemma ShapeParse(ps: seq<string>)
    requires Counts(ps) && Contents(ps)
    ensures Parse(Join(ps)) == Expected()
  {
    ReadingExpected(ps);
    HeadLines(ps);
    LoopLines(ps);
    ParagraphLines(ps);
    TailLines(ps);
    HeadSteps(ps);
    LoopSteps(ps);
    ParagraphSteps(ps);
    TailSteps(ps);
    ParseSteps(ps, Reading(ps), 0);
    assert ps[..0] == [];
    assert Reading(ps)[0..] == Reading(ps);
  }

  /**
   * The parser's test: the ten-line template with a declaration, a header, a loop and
   * a print block parses to the fourteen blocks the test lists.
   */
  lemma ParserTestCase(s: string)
    requires s == Join(Pieces())
    ensures Parse(s) == Expected()
  {
    PiecesShape(Pieces());
    ShapeParse(Pieces());
  }

  /**
   * `parse_path` on the test's template: it returns a template with the given path and a
   * non-empty list of blocks, namely the fourteen the test lists.
   */
  method ParserTestPath(path: string, contents: string) returns (t: Option<Template>)
    requires contents == Join(Pieces())
    ensures t.Some? && t.value.path == path && |t.value.blocks| > 0
    ensures t.value.blocks == Expected()
  {
    ParserTestCase(contents);
    t := ParsePath(path, contents);
  }
}
