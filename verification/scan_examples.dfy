/**
 * The scanner and parser on concrete template texts: templates rebuilt from the blocks
 * the repository's scanner tests expect (test/scanner_test.rs reads them from fixture
 * files, which are not part of this model) and the quirks of the header scanner.
 * Each case takes its text as a parameter fixed by its precondition; a companion
 * lemma lists the characters of the text the proof relies on.
 */
module ScanExamples {
  import opened Wrappers
  import opened Blocks
  import opened Scanning
  import opened ScannerProperties
  import opened Parsing

  /** Plain text is one Text block, stamped after its closing newline. */
  lemma TextCase(s: string)
    requires s == "hello world\n"
    ensures ScanFrom(s, 0) == Scanned(Some(Block(Text, "hello world\n", Pos(2))), 12)
  {
    TextChars(s);
    OneLineText(s);
  }

  lemma TextChars(s: string)
    requires s == "hello world\n"
    ensures |s| == 12 && s[0] != '<' && s[11] == '\n'
    ensures forall k | 1 <= k < 12 :: s[k] != '<'
    ensures forall k | 0 <= k < 11 :: s[k] != '\n'
  {
  }

  /** A line of text without '<' scans as one Text block ending on the next line. */
  lemma OneLineText(s: string)
    requires 0 < |s| && s[0] != '<' && s[|s| - 1] == '\n'
    requires forall k | 1 <= k < |s| :: s[k] != '<'
    requires forall k | 0 <= k < |s| - 1 :: s[k] != '\n'
    ensures ScanFrom(s, 0) == Scanned(Some(Block(Text, s, Pos(2))), |s|)
  {
    PlainRunScan(s, 0, |s|);
    LineAtZero(s);
    LineAtSkip(s, 0, |s| - 1);
    LineAtNext(s, |s| - 1);
    assert s[0..|s|] == s;
  }

  /** A '<' not followed by '%' starts a Text block that takes the next character too. */
  lemma SingleLtCase(s: string)
    requires s == "<\n"
    ensures ScanFrom(s, 0) == Scanned(Some(Block(Text, "<\n", Pos(2))), 2)
  {
    assert |s| == 2 && s[0] == '<' && s[1] == '\n';
    LtRunScan(s, 0, 2);
    LineAtZero(s);
    LineAtNext(s, 0);
    LineAtNext(s, 1);
    assert s[0..2] == s;
  }

  /** A Code block keeps everything between "<%" and "%>". */
  lemma CodeCase(s: string)
    requires s == "<% let x = 1 %>"
    ensures ScanFrom(s, 0) == Scanned(Some(Block(Code, " let x = 1 ", Pos(1))), 15)
  {
    CodeChars(s);
    OneLineTag(s, 13);
  }

  lemma CodeChars(s: string)
    requires s == "<% let x = 1 %>"
    ensures |s| == 15 && s[0] == '<' && s[1] == '%' && s[2] == ' ' && s[13] == '%' && s[14] == '>'
    ensures forall k | 4 <= k < 13 :: s[k] != '%'
    ensures forall k | 0 <= k < |s| :: s[k] != '\n'
    ensures s[2..13] == " let x = 1 "
  {
  }

  /** A Print block drops the '='. */
  lemma PrintCase(s: string)
    requires s == "<%= myNum %>"
    ensures ScanFrom(s, 0) == Scanned(Some(Block(Print, " myNum ", Pos(1))), 12)
  {
    PrintChars(s);
    OneLineTag(s, 10);
  }

  lemma PrintChars(s: string)
    requires s == "<%= myNum %>"
    ensures |s| == 12 && s[0] == '<' && s[1] == '%' && s[2] == '=' && s[10] == '%' && s[11] == '>'
    ensures forall k | 4 <= k < 10 :: s[k] != '%'
    ensures forall k | 0 <= k < |s| :: s[k] != '\n'
    ensures s[3..10] == " myNum "
  {
  }

  /** A Header block drops both markers. */
  lemma HeaderCase(s: string)
    requires s == "<%% use std::io %%>"
    ensures ScanFrom(s, 0) == Scanned(Some(Block(Header, " use std::io ", Pos(1))), 19)
  {
    HeaderChars(s);
    HeaderScanPlain(s, 0, 16);
    LineAtZero(s);
    LineAtSkip(s, 0, 19);
  }

  lemma HeaderChars(s: string)
    requires s == "<%% use std::io %%>"
    ensures |s| == 19 && s[0] == '<' && s[1] == '%' && s[2] == '%' && s[16] == '%' && s[18] == '>'
    ensures forall k | 4 <= k < 16 :: s[k] != '%'
    ensures forall k | 0 <= k < |s| :: s[k] != '\n'
    ensures s[3..16] == " use std::io "
  {
  }

  /**
   * A newline that is not right after a '%' is kept in a header's content; one two places
   * after a '%' fails the scan (HeaderBrokenByNewlineCase).
   */
  lemma HeaderNewlineCase(s: string)
    requires s == "<%% a\nb %%>"
    ensures ScanFrom(s, 0) == Scanned(Some(Block(Header, " a\nb ", Pos(2))), 11)
  {
    HeaderNewlineChars(s);
    HeaderScanPlain(s, 0, 8);
    LineAtZero(s);
    LineAtSkip(s, 0, 5);
    LineAtNext(s, 5);
    LineAtSkip(s, 6, 11);
  }

  lemma HeaderNewlineChars(s: string)
    requires s == "<%% a\nb %%>"
    ensures |s| == 11 && s[0] == '<' && s[1] == '%' && s[2] == '%' && s[8] == '%' && s[10] == '>'
    ensures forall k | 4 <= k < 8 :: s[k] != '%'
    ensures s[5] == '\n' && forall k | 0 <= k < 11 && k != 5 :: s[k] != '\n'
    ensures s[3..8] == " a\nb "
  {
  }

  /**
   * A newline straight after a '%' in a header is the middle character of a `%`, x, y unit:
   * it is read and dropped, and a second '%' takes its place in the content.
   */
  lemma HeaderDroppedNewlineCase(s: string)
    requires s == "<%% a%\nb %%>"
    ensures ScanFrom(s, 0) == Scanned(Some(Block(Header, " a%%b ", Pos(2))), 12)
  {
    HeaderDroppedNewlineChars(s);
    assert HeaderPaired(s, 4, 9) by {
      assert HeaderPaired(s, 8, 9);
    }
    HeaderLoopFirstEnd(s, 4, 9, [s[3]]);
    HeaderContentMasked(s, 0);
    var h := HeaderContentFrom(s, 3, "");
    assert h == HeaderLoop(s, 4, [s[3]]) by {
      assert "" + [s[3]] == [s[3]];
    }
    MaskChar(s, 4, 9);
    MaskGroup(s, 5, 9);
    MaskChar(s, 8, 9);
    assert HeaderMask(s[4..9]) == "a%%b ";
    assert h == Scanned(Some(" a%%b "), 12) by {
      assert [s[3]] + "a%%b " == " a%%b ";
    }
    assert LineAt(s, 12) == 2 by {
      LineAtZero(s);
      LineAtSkip(s, 0, 6);
      LineAtNext(s, 6);
      LineAtSkip(s, 7, 12);
    }
    assert CodeBlockFrom(s, 2) == Stamp(s, Header, h);
  }

  lemma HeaderDroppedNewlineChars(s: string)
    requires s == "<%% a%\nb %%>"
    ensures |s| == 12 && s[0] == '<' && s[1] == '%' && s[2] == '%' && s[3] == ' ' && s[4] == 'a'
    ensures s[5] == '%' && s[6] == '\n' && s[7] == 'b' && s[8] == ' ' && s[9] == '%' && s[11] == '>'
    ensures s[6] == '\n' && forall k | 0 <= k < 12 && k != 6 :: s[k] != '\n'
  {
  }

  /** A code tag cut short by the end of the input yields nothing. */
  lemma UnclosedCodeCase(s: string)
    requires s == "<% let x"
    ensures ScanFrom(s, 0) == Scanned(None, 8)
  {
    assert |s| == 8 && s[0] == '<' && s[1] == '%' && s[2] == ' ';
    assert forall k | 4 <= k < 8 :: s[k] != '%';
    UnclosedTag(s);
  }

  /** A header cut short by the end of the input yields nothing. */
  lemma UnclosedHeaderCase(s: string)
    requires s == "<%% use"
    ensures ScanFrom(s, 0) == Scanned(None, 7)
  {
    assert |s| == 7 && s[0] == '<' && s[1] == '%' && s[2] == '%';
    assert forall k | 4 <= k < 7 :: s[k] != '%';
    UnclosedHeader(s);
  }

  /**
   * A header fails when the character two places after a '%' is a newline, even though
   * newlines elsewhere in a header are kept.
   */
  lemma HeaderBrokenByNewlineCase(s: string)
    requires s == "<%% a %b\nc %%>"
    ensures ScanFrom(s, 0) == Scanned(None, 9)
  {
    assert |s| == 14 && s[0] == '<' && s[1] == '%' && s[2] == '%' && s[6] == '%' && s[8] == '\n';
    assert forall k | 4 <= k < 6 :: s[k] != '%';
    HeaderNewlineFails(s, 6);
  }

  /**
   * A header is not closed by "%>": after a '%' the scanner needs '>' two places on,
   * so "%>" followed by a newline fails the scan.
   */
  lemma HeaderSingleCloseCase(s: string)
    requires s == "<%% use x; %>\n<html>"
    ensures ScanFrom(s, 0) == Scanned(None, 14)
  {
    assert |s| == 20 && s[0] == '<' && s[1] == '%' && s[2] == '%' && s[11] == '%' && s[13] == '\n';
    assert forall k | 4 <= k < 11 :: s[k] != '%';
    HeaderNewlineFails(s, 11);
  }

  /**
   * The content loop reads a '%' together with the character after it, so in
   * "<% x %%> y %>" the "%>" inside "%%>" is never reached: the tag runs to the last
   * "%>" and the Code block keeps "%%>".
   */
  lemma PairedPercentCase(s: string)
    requires s == "<% x %%> y %>"
    ensures !ContentPaired(s, 4, 6)
    ensures ScanFrom(s, 0) == Scanned(Some(Block(Code, " x %%> y ", Pos(1))), 13)
  {
    PairedPercentChars(s);
    assert ContentPaired(s, 4, 11) by {
      assert ContentPaired(s, 7, 11);
    }
    ContentLoopFirstClose(s, 4, 11, [s[3]]);
    assert ContentFrom(s, 3, "") == ContentLoop(s, 4, [s[3]]) by {
      assert "" + [s[3]] == [s[3]];
    }
    assert [s[2]] + ([s[3]] + s[4..11]) == " x %%> y ";
    assert LineAt(s, 13) == 1 by {
      NoNewlines(s);
      assert s[..13] == s;
    }
  }

  lemma PairedPercentChars(s: string)
    requires s == "<% x %%> y %>"
    ensures |s| == 13 && s[0] == '<' && s[1] == '%' && s[2] == ' ' && s[3] == 'x'
    ensures s[4] == ' ' && s[5] == '%' && s[6] == '%' && s[7] == '>'
    ensures s[11] == '%' && s[12] == '>' && s[4..11] == " %%> y "
    ensures forall k | 0 <= k < |s| :: s[k] != '\n'
    ensures forall k | 7 <= k < 11 :: s[k] != '%'
  {
  }

  /** Where the multi-line template of the scanner's tests has its tag characters. */
  ghost predicate MultilineTags(s: string) {
    |s| == 32 &&
    s[0] != '<' && (forall k | 1 <= k < 12 :: s[k] != '<') && s[12] == '<' &&
    s[13] == '%' && s[14] == '=' && (forall k | 16 <= k < 22 :: s[k] != '%') &&
    s[22] == '%' && s[23] == '>' &&
    s[24] != '<' && (forall k | 25 <= k < 32 :: s[k] != '<')
  }

  /** Where the multi-line template of the scanner's tests has its newlines. */
  ghost predicate MultilineNewlines(s: string) {
    |s| == 32 &&
    (forall k | 0 <= k < 18 :: s[k] != '\n') && s[18] == '\n' && s[19] != '\n' &&
    s[20] == '\n' && s[21] == '\n' && (forall k | 22 <= k < 31 :: s[k] != '\n') && s[31] == '\n'
  }

  lemma MultilineTagChars(s: string)
    requires s == "hello\\nworld<%= x \n \n\n%>goodbye\n"
    ensures MultilineTags(s)
  {
  }

  lemma MultilineNewlineChars(s: string)
    requires s == "hello\\nworld<%= x \n \n\n%>goodbye\n"
    ensures MultilineNewlines(s)
  {
  }

  lemma MultilineSlices(s: string)
    requires s == "hello\\nworld<%= x \n \n\n%>goodbye\n"
    ensures s[0..12] == "hello\\nworld" && s[15..22] == " x \n \n\n" && s[24..32] == "goodbye\n"
  {
  }

  lemma MultilineLines(s: string)
    requires MultilineNewlines(s)
    ensures LineAt(s, 12) == 1 && LineAt(s, 24) == 4 && LineAt(s, 32) == 5
  {
    LineAtZero(s);
    LineAtSkip(s, 0, 12);
    LineAtSkip(s, 12, 18);
    LineAtNext(s, 18);
    LineAtNext(s, 19);
    LineAtNext(s, 20);
    LineAtNext(s, 21);
    LineAtSkip(s, 22, 24);
    LineAtSkip(s, 24, 31);
    LineAtNext(s, 31);
  }

  lemma MultilineBlocks(s: string)
    requires MultilineTags(s) && MultilineNewlines(s)
    ensures ParseFrom(s, 0) ==
              [Block(Text, s[0..12], Pos(1)), Block(Print, s[15..22], Pos(4)), Block(Text, s[24..32], Pos(5))]
  {
    MultilineLines(s);
    MultilineScans(s);
    ParseStep(s, 24, 32);
    assert ParseFrom(s, 32) == [];
    ParseStep(s, 12, 24);
    ParseStep(s, 0, 12);
  }

  lemma MultilineScans(s: string)
    requires MultilineTags(s)
    ensures ScanFrom(s, 0) == Scanned(Some(Block(Text, s[0..12], Pos(LineAt(s, 12)))), 12)
    ensures ScanFrom(s, 12) == Scanned(Some(Block(Print, s[15..22], Pos(LineAt(s, 24)))), 24)
    ensures ScanFrom(s, 24) == Scanned(Some(Block(Text, s[24..32], Pos(LineAt(s, 32)))), 32)
  {
    PlainRunScan(s, 0, 12);
    TagScanPlain(s, 12, 22);
    assert TagClass(s[14]) == Print;
    PlainRunScan(s, 24, 32);
  }

  /**
   * The multi-line template parses to a Text block, a Print block whose content spans
   * three newlines, and a Text block, each stamped with the line its scan ended on.
   */
  lemma MultilineCase(s: string)
    requires s == "hello\\nworld<%= x \n \n\n%>goodbye\n"
    ensures Parse(s) ==
              [Block(Text, "hello\\nworld", Pos(1)),
               Block(Print, " x \n \n\n", Pos(4)),
               Block(Text, "goodbye\n", Pos(5))]
  {
    MultilineTagChars(s);
    MultilineNewlineChars(s);
    MultilineSlices(s);
    MultilineBlocks(s);
  }
}
