/**
 * The block model of src/ers/blocks.rs (duplicated in src/ers/lib.rs): the classes of
 * block, the line stamp, the block itself, and how each block is written into the
 * generated Rust source.
 */
module Blocks {
  import opened Wrappers

  /** The five kinds of block the scanner produces. */
  datatype Class = Declaration | Header | Code | Text | Print

  /** Line number at which the scan of a block finished (Rust `int`, unbounded here). */
  datatype Pos = Pos(lineNo: int)

  /** A classified, positioned fragment of the template; equality is structural. */
  datatype Block = Block(cls: Class, content: string, pos: Pos)

  /**
   * The output sink handed to the `write` functions. Writes never fail here: the
   * source discards their results.
   */
  class Writer {
    var written: string

    constructor ()
      ensures written == []
    {
      written := [];
    }

    /** `write_str`: appends the string. */
    method WriteStr(s: string)
      modifies this
      ensures written == old(written) + s
    {
      written := written + s;
    }

    /** `write_line`: appends the string and a newline. */
    method WriteLine(s: string)
      modifies this
      ensures written == old(written) + s + "\n"
    {
      written := written + s + "\n";
    }
  }

  // ----- Decimal rendering of line numbers (`{:d}`) -----

  predicate IsDigit(c: char) {
    '0' <= c <= '9'
  }

  function DigitChar(d: nat): (c: char)
    requires d < 10
    ensures IsDigit(c) && c as int - '0' as int == d
  {
    ('0' as int + d) as char
  }

  /** The decimal digits of n, most significant first, without leading zeros. */
  function NatDigits(n: nat): (s: string)
    ensures |s| >= 1
    ensures forall k | 0 <= k < |s| :: IsDigit(s[k])
    ensures s[0] == '0' ==> n == 0
  {
    if n < 10 then [DigitChar(n)] else NatDigits(n / 10) + [DigitChar(n % 10)]
  }

  /** `{:d}` of a Rust `int`: a minus sign for negative numbers, then the digits. */
  function Decimal(n: int): (s: string)
    ensures |s| >= 1 && (s[0] == '-' <==> n < 0)
    ensures forall k | 0 < k < |s| :: IsDigit(s[k])
  {
    if n < 0 then "-" + NatDigits(-n) else NatDigits(n)
  }

  /** The value of a string of decimal digits (the reading direction of `Decimal`). */
  function DigitsValue(s: string): nat
    requires forall k | 0 <= k < |s| :: IsDigit(s[k])
  {
    if s == [] then 0
    else
      var d := s[|s| - 1] as int - '0' as int;
      assert IsDigit(s[|s| - 1]);
      DigitsValue(s[..|s| - 1]) * 10 + d
  }

  predicate AllDigits(s: string) {
    |s| > 0 && forall k | 0 <= k < |s| :: IsDigit(s[k])
  }

  /** Reads an optionally negative decimal number; None when `s` is not one. */
  function DecimalValue(s: string): Option<int> {
    if AllDigits(s) then Some(DigitsValue(s))
    else if |s| > 0 && s[0] == '-' && AllDigits(s[1..]) then
      var v: int := DigitsValue(s[1..]);
      Some(-v)
    else None
  }

  lemma {:induction false} NatDigitsValue(n: nat)
    ensures DigitsValue(NatDigits(n)) == n
  {
    if n >= 10 {
      var s := NatDigits(n);
      assert s[..|s| - 1] == NatDigits(n / 10);
      NatDigitsValue(n / 10);
    }
  }

  /** Reading back what `{:d}` wrote gives the original number. */
  lemma DecimalRoundTrip(n: int)
    ensures '\n' !in Decimal(n)
    ensures DecimalValue(Decimal(n)) == Some(n)
  {
    if n < 0 {
      NegativeRoundTrip(n);
    } else {
      NatDigitsValue(n);
    }
  }

  lemma NegativeRoundTrip(n: int)
    requires n < 0
    ensures '\n' !in Decimal(n)
    ensures DecimalValue(Decimal(n)) == Some(n)
  {
    var d := NatDigits(-n);
    NatDigitsValue(-n);
    SignedLacksNewline(d);
    SignedValue(Decimal(n), d, -n);
  }

  lemma SignedValue(s: string, d: string, v: nat)
    requires AllDigits(d) && s == "-" + d && DigitsValue(d) == v
    ensures DecimalValue(s) == Some(-(v as int))
  {
    assert s[1..] == d;
    assert !IsDigit(s[0]);
  }

  lemma SignedLacksNewline(d: string)
    requires AllDigits(d)
    ensures '\n' !in "-" + d
  {
    var s := "-" + d;
    forall k | 0 <= k < |s| ensures s[k] != '\n' {
      if k > 0 {
        assert s[k] == d[k - 1];
      }
    }
  }

  // ----- Rendering of positions and blocks -----

  const LineMarker: string := "\n//line "

  /** What `Pos::write` appends: `write_line` of `"\n//line N"`. */
  function PosText(p: Pos): (s: string)
    ensures |s| > |LineMarker| && s[..|LineMarker|] == LineMarker
    ensures s[|s| - 1] == '\n' && forall k | |LineMarker| <= k < |s| - 1 :: s[k] != '\n'
  {
    DecimalRoundTrip(p.lineNo);
    LineMarker + Decimal(p.lineNo) + "\n"
  }

  /** The fixed pieces of text `Block::write` puts around a block's content. */
  const DeclarationClosing: string := " {\n"
  const TextOpening: string := "writer.write_line(\""
  const TextClosing: string := "\");\n"
  const PrintOpening: string := "writer.write_line(format!(\"{:?}\", "
  const PrintClosing: string := "));\n"

  /** The fixed text `Block::write` emits before a block's content, per class. */
  function Opening(c: Class): string {
    match c
    case Text => TextOpening
    case Print => PrintOpening
    case _ => ""
  }

  /** The fixed text `Block::write` emits after a block's content, per class. */
  function Closing(c: Class): string {
    match c
    case Declaration => DeclarationClosing
    case Text => TextClosing
    case Print => PrintClosing
    case _ => "\n"
  }

  /** What `Block::write` appends after the position marker: the content between its class's fixed texts. */
  function BodyText(b: Block): (s: string)
    ensures |s| == |Opening(b.cls)| + |b.content| + |Closing(b.cls)|
    ensures s[|Opening(b.cls)|..|s| - |Closing(b.cls)|] == b.content
  {
    Opening(b.cls) + b.content + Closing(b.cls)
  }

  /** Everything `Block::write` appends. */
  function Rendering(b: Block): string {
    PosText(b.pos) + BodyText(b)
  }

  /** Index of the first newline at or after `from`, or |s| when there is none. */
  function NewlineFrom(s: string, from: nat): (e: nat)
    requires from <= |s|
    ensures from <= e <= |s|
    ensures e < |s| ==> s[e] == '\n'
    ensures forall k | from <= k < e :: s[k] != '\n'
    decreases |s| - from
  {
    if from == |s| || s[from] == '\n' then from else NewlineFrom(s, from + 1)
  }

  /**
   * The line number a reader of the generated source finds in a rendering: the
   * number between the `//line ` marker and the end of that line.
   */
  function LineOfRendering(r: string): Option<int> {
    if |r| < |LineMarker| || r[..|LineMarker|] != LineMarker then None
    else
      var e := NewlineFrom(r, |LineMarker|);
      if e == |r| then None else DecimalValue(r[|LineMarker|..e])
  }

  /**
   * Every rendering starts with the position marker, from which the block's line
   * number can be read back, and holds the block's content verbatim and unescaped
   * between a fixed per-class opening and closing.
   */
  lemma RenderingLayout(b: Block)
    ensures Rendering(b) == PosText(b.pos) + Opening(b.cls) + b.content + Closing(b.cls)
    ensures Rendering(b)[..|PosText(b.pos)|] == PosText(b.pos)
    ensures LineOfRendering(Rendering(b)) == Some(b.pos.lineNo)
  {
    PosLine(b.pos, BodyText(b));
    Assoc(PosText(b.pos), Opening(b.cls) + b.content, Closing(b.cls));
    Assoc(PosText(b.pos), Opening(b.cls), b.content);
  }

  /** The line number can be read back from a position marker, whatever follows it. */
  lemma PosLine(p: Pos, rest: string)
    ensures (PosText(p) + rest)[..|PosText(p)|] == PosText(p)
    ensures LineOfRendering(PosText(p) + rest) == Some(p.lineNo)
  {
    var d := Decimal(p.lineNo);
    DecimalRoundTrip(p.lineNo);
    MarkedLine(PosText(p) + rest, d, rest);
  }

  /** In a marker, a newline-free text and a newline, the text is what lies between them. */
  lemma MarkedLine(r: string, d: string, rest: string)
    requires r == LineMarker + d + "\n" + rest && '\n' !in d
    ensures r[..|LineMarker|] == LineMarker
    ensures NewlineFrom(r, |LineMarker|) == |LineMarker| + |d| && r[|LineMarker|..|LineMarker| + |d|] == d
  {
    var e := |LineMarker| + |d|;
    assert r[e] == '\n';
    forall k | |LineMarker| <= k < e ensures r[k] != '\n' {
      assert r[k] == d[k - |LineMarker|];
    }
    NewlineFromFirst(r, |LineMarker|, e);
  }

  lemma {:induction false} NewlineFromFirst(s: string, from: nat, e: nat)
    requires from <= e < |s| && s[e] == '\n'
    requires forall k | from <= k < e :: s[k] != '\n'
    ensures NewlineFrom(s, from) == e
    decreases e - from
  {
    if from < e {
      NewlineFromFirst(s, from + 1, e);
    }
  }

  /** A Header and a Code block with the same content and line render identically. */
  lemma HeaderRendersLikeCode(content: string, p: Pos)
    ensures Rendering(Block(Header, content, p)) == Rendering(Block(Code, content, p))
  {
  }

  /** `Pos::write`. */
  method WritePos(p: Pos, w: Writer)
    modifies w
    ensures w.written == old(w.written) + PosText(p)
  {
    w.WriteLine(LineMarker + Decimal(p.lineNo));
  }

  /** `Block::write`: the position marker, then the per-class text. */
  method WriteBlock(b: Block, w: Writer)
    modifies w
    ensures w.written == old(w.written) + Rendering(b)
  {
    ghost var start := w.written;
    WritePos(b.pos, w);
    WriteBody(b, w);
    Assoc(start, PosText(b.pos), BodyText(b));
  }

  lemma Assoc(a: string, b: string, c: string)
    ensures a + b + c == a + (b + c)
  {
  }

  /** The `match` of `Block::write`. */
  method WriteBody(b: Block, w: Writer)
    modifies w
    ensures w.written == old(w.written) + BodyText(b)
  {
    ghost var start := w.written;
    match b.cls {
      case Header =>
        assert BodyText(b) == b.content + "\n";
        w.WriteLine(b.content);
      case Declaration =>
        assert BodyText(b) == b.content + DeclarationClosing;
        w.WriteStr(b.content);
        w.WriteStr(DeclarationClosing);
        Assoc(start, b.content, DeclarationClosing);
      case Text =>
        w.WriteStr(TextOpening + b.content + TextClosing);
      case Print =>
        w.WriteStr(PrintOpening);
        w.WriteStr(b.content);
        w.WriteStr(PrintClosing);
        Assoc(start, PrintOpening, b.content);
        Assoc(start, PrintOpening + b.content, PrintClosing);
      case _ =>
        assert BodyText(b) == b.content + "\n";
        w.WriteLine(b.content);
    }
  }
}
