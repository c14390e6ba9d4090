/**
 * Properties of one call of `scan` (src/ers/scanner.rs:80-321): what text a block was
 * read from, how tags are dispatched, where a scan can fail, and the line stamp.
 */
module ScannerProperties {
  import opened Wrappers
  import opened Blocks
  import opened Scanning

  /**
   * c is src with some of its characters replaced by '%', each of them one that comes
   * right after a '%' of src.
   */
  predicate PercentMasked(c: string, src: string) {
    |c| == |src| &&
    forall k | 0 <= k < |c| :: c[k] == src[k] || (c[k] == '%' && 0 < k && src[k - 1] == '%')
  }

  lemma PercentMaskedAppend(a: string, b: string, c: string, d: string)
    requires PercentMasked(a, b) && PercentMasked(c, d)
    ensures PercentMasked(a + c, b + d)
  {
    forall k | 0 <= k < |a + c|
      ensures (a + c)[k] == (b + d)[k] || ((a + c)[k] == '%' && 0 < k && (b + d)[k - 1] == '%')
    {
      if k >= |a| {
        assert (a + c)[k] == c[k - |a|] && (b + d)[k] == d[k - |a|];
        if 0 < k - |a| {
          assert (b + d)[k - 1] == d[k - |a| - 1];
        }
      } else if 0 < k {
        assert (b + d)[k - 1] == b[k - 1];
      }
    }
  }

  /**
   * What the header loop keeps of the text it passes over: a '%' and the two characters
   * after it become "%%" and the second of them; any other character is kept.
   */
  function HeaderMask(src: string): string
    decreases |src|
  {
    if src == [] then []
    else if src[0] == '%' && 3 <= |src| then ['%', '%', src[2]] + HeaderMask(src[3..])
    else [src[0]] + HeaderMask(src[1..])
  }

  /** The mask replaces only characters that follow a '%', each by a '%'. */
  lemma {:induction false} HeaderMaskMasked(src: string)
    ensures PercentMasked(HeaderMask(src), src)
    decreases |src|
  {
    if src != [] {
      if src[0] == '%' && 3 <= |src| {
        HeaderMaskMasked(src[3..]);
        assert PercentMasked(['%', '%', src[2]], src[..3]);
        PercentMaskedAppend(['%', '%', src[2]], src[..3], HeaderMask(src[3..]), src[3..]);
        assert src[..3] + src[3..] == src;
      } else {
        HeaderMaskMasked(src[1..]);
        PercentMaskedAppend([src[0]], [src[0]], HeaderMask(src[1..]), src[1..]);
        assert [src[0]] + src[1..] == src;
      }
    }
  }

  /** A header's template text given the text it was read from: its content masked. */
  function HeaderText(t: string): string
    requires 7 <= |t|
  {
    "<%%" + [t[3]] + HeaderMask(t[4..|t| - 3]) + "%%>"
  }

  lemma MaskGroup(input: string, i: nat, m: nat)
    requires i + 3 <= m <= |input| && input[i] == '%'
    ensures HeaderMask(input[i..m]) == ['%', '%', input[i + 2]] + HeaderMask(input[i + 3..m])
  {
    assert input[i..m][0] == '%' && input[i..m][2] == input[i + 2];
    assert input[i..m][3..] == input[i + 3..m];
  }

  lemma MaskChar(input: string, i: nat, m: nat)
    requires i < m <= |input| && input[i] != '%'
    ensures HeaderMask(input[i..m]) == [input[i]] + HeaderMask(input[i + 1..m])
  {
    assert input[i..m][0] == input[i];
    assert input[i..m][1..] == input[i + 1..m];
  }

  /**
   * The template text a block stands for: the tag with its markers around the content,
   * or the text itself. For a header it is `<%%`, the content and `%%>`.
   */
  function Source(b: Block): string {
    match b.cls
    case Text => b.content
    case Declaration => "<%!" + b.content + "%>"
    case Print => "<%=" + b.content + "%>"
    case Code => "<%" + b.content + "%>"
    case Header => "<%%" + b.content + "%%>"
  }

  /**
   * On success the header loop returns the accumulated text followed by the masked
   * text it passed over before the closing three characters.
   */
  lemma {:induction false} HeaderLoopMasked(input: string, i: nat, acc: string)
    requires i <= |input|
    ensures var r := HeaderLoop(input, i, acc);
            r.value.Some? ==> i + 3 <= r.next && r.value.value == acc + HeaderMask(input[i..r.next - 3])
    decreases |input| - i
  {
    var r := HeaderLoop(input, i, acc);
    if i < |input| && r.value.Some? {
      var n := r.next;
      if input[i] == '%' {
        if i + 2 < |input| && input[i + 2] != '>' {
          var g := ['%', '%', input[i + 2]];
          assert r == HeaderLoop(input, i + 3, acc + g);
          HeaderLoopMasked(input, i + 3, acc + g);
          MaskGroup(input, i, n - 3);
          Assoc(acc, g, HeaderMask(input[i + 3..n - 3]));
        } else {
          assert input[i..n - 3] == [] && acc + [] == acc;
        }
      } else {
        assert r == HeaderLoop(input, i + 1, acc + [input[i]]);
        HeaderLoopMasked(input, i + 1, acc + [input[i]]);
        MaskChar(input, i, n - 3);
        Assoc(acc, [input[i]], HeaderMask(input[i + 1..n - 3]));
      }
    }
  }

  /**
   * Scanning undoes itself: every block except a header is exactly the text it was
   * read from, markers included; a header is that text with its content masked, so the
   * character after each inner '%' and the one between the closing '%' and '>' become
   * '%'. Every block carries the line reached when its scan ended.
   */
  lemma ScanSource(input: string, i: nat)
    requires i <= |input|
    ensures var r := ScanFrom(input, i);
            r.value.Some? ==>
              var b := r.value.value;
              (b.cls != Header ==> input[i..r.next] == Source(b)) &&
              (b.cls == Header ==> i + 7 <= r.next && Source(b) == HeaderText(input[i..r.next])) &&
              PercentMasked(Source(b), input[i..r.next]) &&
              b.pos == Pos(LineAt(input, r.next))
  {
    if i == |input| {
    } else if input[i] != '<' || i + 1 == |input| || input[i + 1] != '%' {
      TextSource(input, i);
    } else if i + 2 == |input| {
    } else if input[i + 2] == '%' {
      HeaderTagSource(input, i);
    } else {
      TagSource(input, i);
    }
  }

  /** The property ScanSource states of the scan at i. */
  ghost predicate ReadFromSource(input: string, i: nat)
    requires i <= |input|
  {
    var r := ScanFrom(input, i);
    r.value.Some? ==>
      var b := r.value.value;
      (b.cls != Header ==> input[i..r.next] == Source(b)) &&
      (b.cls == Header ==> i + 7 <= r.next && Source(b) == HeaderText(input[i..r.next])) &&
      PercentMasked(Source(b), input[i..r.next]) &&
      b.pos == Pos(LineAt(input, r.next))
  }

  lemma TextSource(input: string, i: nat)
    requires i < |input| && (input[i] != '<' || i + 1 == |input| || input[i + 1] != '%')
    ensures ReadFromSource(input, i)
  {
    var r := ScanFrom(input, i);
    var n := r.next;
    if input[i] != '<' {
      assert input[i..n] == [input[i]] + input[i + 1..n];
    } else if i + 1 < |input| {
      assert input[i..n] == ['<', input[i + 1]] + input[i + 2..n];
    }
  }

  lemma TagSource(input: string, i: nat)
    requires i + 2 < |input| && input[i] == '<' && input[i + 1] == '%' && input[i + 2] != '%'
    ensures ReadFromSource(input, i)
  {
    var r := ScanFrom(input, i);
    if r.value.Some? {
      var d := input[i + 2];
      var c := ContentFrom(input, i + 3, "");
      TagText(input, i);
      assert "<%" + ([d] + c.value.value) + "%>" == "<%" + [d] + c.value.value + "%>";
      if d == '!' {
        assert "<%" + [d] == "<%!";
      } else if d == '=' {
        assert "<%" + [d] == "<%=";
      }
    }
  }

  /** The text of a non-header tag: "<%", the dispatch character, the content, "%>". */
  lemma TagText(input: string, i: nat)
    requires i + 2 < |input| && input[i] == '<' && input[i + 1] == '%'
    ensures var c := ContentFrom(input, i + 3, "");
            c.value.Some? ==> input[i..c.next] == "<%" + ([input[i + 2]] + c.value.value) + "%>"
  {
    var c := ContentFrom(input, i + 3, "");
    if c.value.Some? {
      TagSlices(input, i, c.next, c.value.value);
    }
  }

  lemma TagSlices(input: string, i: nat, n: nat, content: string)
    requires i + 6 <= n <= |input| && input[i] == '<' && input[i + 1] == '%'
    requires content == "" + input[i + 3..n - 2]
    requires input[n - 2] == '%' && input[n - 1] == '>'
    ensures input[i..n] == "<%" + ([input[i + 2]] + content) + "%>"
  {
    assert input[i..n] == input[i..i + 2] + (input[i + 2..i + 3] + input[i + 3..n - 2]) + input[n - 2..n];
    assert input[i..i + 2] == "<%" && input[n - 2..n] == "%>";
    assert input[i + 2..i + 3] == [input[i + 2]];
  }

  lemma HeaderTagSource(input: string, i: nat)
    requires i + 2 < |input| && input[i] == '<' && input[i + 1] == '%' && input[i + 2] == '%'
    ensures var r := CodeBlockFrom(input, i + 2);
            r.value.Some? ==>
              r.value.value.cls == Header && i + 7 <= r.next &&
              Source(r.value.value) == HeaderText(input[i..r.next]) &&
              PercentMasked(Source(r.value.value), input[i..r.next]) &&
              r.value.value.pos == Pos(LineAt(input, r.next))
  {
    var r := CodeBlockFrom(input, i + 2);
    if r.value.Some? {
      assert r == Stamp(input, Header, HeaderContentFrom(input, i + 3, ""));
      HeaderContentMasked(input, i);
      HeaderSplice(input, i, r.next, r.value.value.content);
    }
  }

  /** The content of a header is its first character and then the text up to the closing '%', masked. */
  lemma HeaderContentMasked(input: string, i: nat)
    requires i + 3 <= |input|
    ensures var h := HeaderContentFrom(input, i + 3, "");
            h.value.Some? ==>
              i + 7 <= h.next && input[h.next - 3] == '%' && input[h.next - 1] == '>' &&
              h.value.value == [input[i + 3]] + HeaderMask(input[i + 4..h.next - 3])
  {
    if i + 3 < |input| {
      var h := HeaderContentFrom(input, i + 3, "");
      assert "" + [input[i + 3]] == [input[i + 3]];
      assert h == HeaderLoop(input, i + 4, [input[i + 3]]);
      HeaderLoopMasked(input, i + 4, [input[i + 3]]);
    }
  }

  /** Markers around the masked content give the header's text, a masked copy of its source. */
  lemma HeaderSplice(input: string, i: nat, n: nat, content: string)
    requires i + 7 <= n <= |input|
    requires input[i] == '<' && input[i + 1] == '%' && input[i + 2] == '%'
    requires input[n - 3] == '%' && input[n - 1] == '>'
    requires content == [input[i + 3]] + HeaderMask(input[i + 4..n - 3])
    ensures "<%%" + content + "%%>" == HeaderText(input[i..n])
    ensures PercentMasked("<%%" + content + "%%>", input[i..n])
  {
    HeaderTextOf(input, i, n);
    assert "<%%" + content + "%%>" == "<%%" + [input[i + 3]] + HeaderMask(input[i + 4..n - 3]) + "%%>";
    HeaderTextMasked(input, i, n);
  }

  lemma HeaderTextOf(input: string, i: nat, n: nat)
    requires i + 7 <= n <= |input|
    ensures HeaderText(input[i..n]) == "<%%" + [input[i + 3]] + HeaderMask(input[i + 4..n - 3]) + "%%>"
  {
    var t := input[i..n];
    forall k | 4 <= k < n - i - 3 ensures t[k] == input[i + k] {
    }
    assert t[3] == input[i + 3];
    assert t[4..|t| - 3] == input[i + 4..n - 3];
  }

  lemma HeaderTextMasked(input: string, i: nat, n: nat)
    requires i + 7 <= n <= |input|
    requires input[i] == '<' && input[i + 1] == '%' && input[i + 2] == '%'
    requires input[n - 3] == '%' && input[n - 1] == '>'
    ensures PercentMasked("<%%" + [input[i + 3]] + HeaderMask(input[i + 4..n - 3]) + "%%>", input[i..n])
  {
    var m := HeaderMask(input[i + 4..n - 3]);
    HeaderMaskMasked(input[i + 4..n - 3]);
    assert input[i..n] == input[i..i + 4] + input[i + 4..n - 3] + input[n - 3..n];
    assert input[i..i + 4] == "<%%" + [input[i + 3]];
    assert PercentMasked("%%>", input[n - 3..n]);
    PercentMaskedAppend("<%%" + [input[i + 3]], input[i..i + 4], m, input[i + 4..n - 3]);
    PercentMaskedAppend("<%%" + [input[i + 3]] + m, input[i..i + 4] + input[i + 4..n - 3], "%%>", input[n - 3..n]);
  }

  /**
   * Tag dispatch: a block is a Text block exactly when the input at the cursor does
   * not open with "<%"; otherwise the character after "<%" decides the class, and for
   * a Code block it is kept as the first character of the content.
   */
  lemma TagDispatch(input: string, i: nat)
    requires i <= |input|
    ensures var r := ScanFrom(input, i);
            r.value.Some? ==>
              var b := r.value.value;
              var tag := i + 2 < |input| && input[i] == '<' && input[i + 1] == '%';
              (b.cls == Text <==> !tag) &&
              (b.cls == Declaration <==> tag && input[i + 2] == '!') &&
              (b.cls == Header <==> tag && input[i + 2] == '%') &&
              (b.cls == Print <==> tag && input[i + 2] == '=') &&
              (b.cls == Code <==> tag && input[i + 2] !in {'!', '%', '='}) &&
              (b.cls == Code ==> |b.content| > 0 && b.content[0] == input[i + 2])
  {
  }

  /**
   * Text never fails: a scan yields nothing only at the end of the input or inside a
   * tag opened by "<%", and then either the input ran out or a header had a newline
   * two places after a '%'.
   */
  lemma ScanFailure(input: string, i: nat)
    requires i <= |input|
    ensures var r := ScanFrom(input, i);
            r.value.None? ==>
              i == |input| ||
              (i + 2 <= |input| && input[i] == '<' && input[i + 1] == '%' &&
               (r.next == |input| ||
                (i + 2 < |input| && input[i + 2] == '%' && i + 7 <= r.next &&
                 input[r.next - 3] == '%' && input[r.next - 1] == '\n')))
  {
    if i + 3 < |input| && input[i] == '<' && input[i + 1] == '%' && input[i + 2] == '%' {
    }
  }

  /**
   * A Text block stops before the next '<' or at the end of the input, so a '<' can
   * occur in its content only as its first character or right after a leading '<'.
   */
  lemma TextBlockStops(input: string, i: nat)
    requires i <= |input|
    ensures var r := ScanFrom(input, i);
            r.value.Some? && r.value.value.cls == Text ==>
              var c := r.value.value.content;
              c == input[i..r.next] &&
              (r.next == |input| || input[r.next] == '<') &&
              forall k | 1 <= k < |c| :: c[k] == '<' ==> k == 1 && c[0] == '<'
  {
    var r := ScanFrom(input, i);
    if r.value.Some? && r.value.value.cls == Text {
      ScanSource(input, i);
      var c := r.value.value.content;
      forall k | 1 <= k < |c| && c[k] == '<' ensures k == 1 && c[0] == '<' {
        assert c[k] == input[i + k];
      }
    }
  }

  /** The class a tag's dispatch character selects. */
  function TagClass(d: char): Class {
    if d == '!' then Declaration
    else if d == '%' then Header
    else if d == '=' then Print
    else Code
  }

  /** The content loop runs to the first "%>" when no '%' comes before it. */
  lemma {:induction false} ContentLoopPlain(input: string, i: nat, j: nat, acc: string)
    requires i <= j && j + 2 <= |input| && input[j] == '%' && input[j + 1] == '>'
    requires forall k | i <= k < j :: input[k] != '%'
    ensures ContentLoop(input, i, acc) == Scanned(Some(acc + input[i..j]), j + 2)
    decreases j - i
  {
    if i < j {
      ContentLoopPlain(input, i + 1, j, acc + [input[i]]);
      assert input[i..j] == [input[i]] + input[i + 1..j];
      assert acc + [input[i]] + input[i + 1..j] == acc + ([input[i]] + input[i + 1..j]);
    } else {
      assert acc + input[i..j] == acc;
    }
  }

  /**
   * A tag "<%", dispatch character, content, "%>" with no '%' between its first
   * content character and the "%>" scans to one block, ending right after the "%>".
   * The dispatch character is part of a Code block's content and of no other's, and
   * the character after it is taken whatever it is, so at least one character must
   * separate it from the "%>".
   */
  lemma TagScanPlain(input: string, i: nat, j: nat)
    requires i + 4 <= j && j + 2 <= |input|
    requires input[i] == '<' && input[i + 1] == '%' && input[i + 2] != '%'
    requires forall k | i + 4 <= k < j :: input[k] != '%'
    requires input[j] == '%' && input[j + 1] == '>'
    ensures ScanFrom(input, i) ==
              Scanned(Some(Block(TagClass(input[i + 2]),
                                 if input[i + 2] in {'!', '='} then input[i + 3..j] else input[i + 2..j],
                                 Pos(LineAt(input, j + 2)))),
                      j + 2)
  {
    var c := ContentFrom(input, i + 3, "");
    ContentLoopPlain(input, i + 4, j, "" + [input[i + 3]]);
    assert c == ContentLoop(input, i + 4, "" + [input[i + 3]]);
    assert "" + [input[i + 3]] + input[i + 4..j] == input[i + 3..j];
    assert [input[i + 2]] + input[i + 3..j] == input[i + 2..j];
    assert ScanFrom(input, i) == CodeBlockFrom(input, i + 2);
  }

  /** The header loop runs to the first '%' whose second next character is '>'. */
  lemma {:induction false} HeaderLoopPlain(input: string, i: nat, j: nat, acc: string)
    requires i <= j && j + 2 < |input| && input[j] == '%' && input[j + 2] == '>'
    requires forall k | i <= k < j :: input[k] != '%'
    ensures HeaderLoop(input, i, acc) == Scanned(Some(acc + input[i..j]), j + 3)
    decreases j - i
  {
    if i < j {
      assert HeaderLoop(input, i, acc) == HeaderLoop(input, i + 1, acc + [input[i]]);
      HeaderLoopPlain(input, i + 1, j, acc + [input[i]]);
      assert input[i..j] == [input[i]] + input[i + 1..j];
      assert acc + [input[i]] + input[i + 1..j] == acc + ([input[i]] + input[i + 1..j]);
    } else {
      assert acc + input[i..j] == acc;
    }
  }

  /**
   * A header "<%%", content, '%', any character, '>' with no '%' in the content after
   * its first character scans to one Header block. The character between the closing
   * '%' and '>' is dropped unchecked, and newlines in the content are kept.
   */
  lemma HeaderScanPlain(input: string, i: nat, j: nat)
    requires i + 4 <= j && j + 2 < |input|
    requires input[i] == '<' && input[i + 1] == '%' && input[i + 2] == '%'
    requires forall k | i + 4 <= k < j :: input[k] != '%'
    requires input[j] == '%' && input[j + 2] == '>'
    ensures ScanFrom(input, i) ==
              Scanned(Some(Block(Header, input[i + 3..j], Pos(LineAt(input, j + 3)))), j + 3)
  {
    var c := HeaderContentFrom(input, i + 3, "");
    HeaderLoopPlain(input, i + 4, j, "" + [input[i + 3]]);
    assert c == HeaderLoop(input, i + 4, "" + [input[i + 3]]);
    assert "" + [input[i + 3]] + input[i + 4..j] == input[i + 3..j];
    assert CodeBlockFrom(input, i + 2) == Stamp(input, Header, c);
  }

  /** The text run from i ends at the first '<' or at the end. */
  lemma {:induction false} TextRunEndAt(input: string, i: nat, j: nat)
    requires i <= j <= |input|
    requires j == |input| || input[j] == '<'
    requires forall k | i <= k < j :: input[k] != '<'
    ensures TextRunEnd(input, i) == j
    decreases j - i
  {
    if i < j {
      TextRunEndAt(input, i + 1, j);
    }
  }

  /** The content loop fails by running out of input when no '%' is left. */
  lemma {:induction false} ContentLoopUnclosed(input: string, i: nat, acc: string)
    requires i <= |input|
    requires forall k | i <= k < |input| :: input[k] != '%'
    ensures ContentLoop(input, i, acc) == Scanned(None, |input|)
    decreases |input| - i
  {
    if i < |input| {
      ContentLoopUnclosed(input, i + 1, acc + [input[i]]);
    }
  }

  /** The header loop fails by running out of input when no '%' is left. */
  lemma {:induction false} HeaderLoopUnclosed(input: string, i: nat, acc: string)
    requires i <= |input|
    requires forall k | i <= k < |input| :: input[k] != '%'
    ensures HeaderLoop(input, i, acc) == Scanned(None, |input|)
    decreases |input| - i
  {
    if i < |input| {
      assert HeaderLoop(input, i, acc) == HeaderLoop(input, i + 1, acc + [input[i]]);
      HeaderLoopUnclosed(input, i + 1, acc + [input[i]]);
    }
  }

  /** The content loop copies a run without '%' and carries on after it. */
  lemma {:induction false} ContentLoopSkip(input: string, i: nat, j: nat, acc: string)
    requires i <= j <= |input|
    requires forall k | i <= k < j :: input[k] != '%'
    ensures ContentLoop(input, i, acc) == ContentLoop(input, j, acc + input[i..j])
    decreases j - i
  {
    if i < j {
      ContentLoopSkip(input, i + 1, j, acc + [input[i]]);
      assert input[i..j] == [input[i]] + input[i + 1..j];
      assert acc + [input[i]] + input[i + 1..j] == acc + ([input[i]] + input[i + 1..j]);
    } else {
      assert acc + input[i..j] == acc;
    }
  }

  /** The header loop copies a run without '%' and carries on after it. */
  lemma {:induction false} HeaderLoopSkip(input: string, i: nat, j: nat, acc: string)
    requires i <= j <= |input|
    requires forall k | i <= k < j :: input[k] != '%'
    ensures HeaderLoop(input, i, acc) == HeaderLoop(input, j, acc + input[i..j])
    decreases j - i
  {
    if i < j {
      assert HeaderLoop(input, i, acc) == HeaderLoop(input, i + 1, acc + [input[i]]);
      HeaderLoopSkip(input, i + 1, j, acc + [input[i]]);
      assert input[i..j] == [input[i]] + input[i + 1..j];
      assert acc + [input[i]] + input[i + 1..j] == acc + ([input[i]] + input[i + 1..j]);
    } else {
      assert acc + input[i..j] == acc;
    }
  }

  /**
   * A one-line tag "<%", dispatch character, content, "%>" with no '%' in the content
   * after its first character scans to one block stamped with line 1.
   */
  lemma OneLineTag(s: string, j: nat)
    requires 4 <= j && j + 2 == |s|
    requires s[0] == '<' && s[1] == '%' && s[2] != '%'
    requires forall k | 4 <= k < j :: s[k] != '%'
    requires s[j] == '%' && s[j + 1] == '>'
    requires forall k | 0 <= k < |s| :: s[k] != '\n'
    ensures ScanFrom(s, 0) ==
              Scanned(Some(Block(TagClass(s[2]), if s[2] in {'!', '='} then s[3..j] else s[2..j], Pos(1))),
                      |s|)
  {
    assert LineAt(s, j + 2) == 1 by {
      NoNewlines(s);
      assert s[..|s|] == s;
    }
    TagScanPlain(s, 0, j);
  }


  /** A Text block read from a run that does not open with '<'. */
  lemma PlainRunScan(input: string, i: nat, j: nat)
    requires i < j <= |input| && input[i] != '<'
    requires forall k | i + 1 <= k < j :: input[k] != '<'
    requires j == |input| || input[j] == '<'
    ensures ScanFrom(input, i) == Scanned(Some(Block(Text, input[i..j], Pos(LineAt(input, j)))), j)
  {
    TextRunEndAt(input, i + 1, j);
    assert [input[i]] + input[i + 1..j] == input[i..j];
  }

  /** A Text block read from a run that opens with '<' not followed by '%'. */
  lemma LtRunScan(input: string, i: nat, j: nat)
    requires i + 2 <= j <= |input| && input[i] == '<' && input[i + 1] != '%'
    requires forall k | i + 2 <= k < j :: input[k] != '<'
    requires j == |input| || input[j] == '<'
    ensures ScanFrom(input, i) == Scanned(Some(Block(Text, input[i..j], Pos(LineAt(input, j)))), j)
  {
    TextRunEndAt(input, i + 2, j);
    assert ['<', input[i + 1]] + input[i + 2..j] == input[i..j];
  }

  /**
   * A non-header tag with no '%' after its first content character never closes: the
   * scan yields nothing and consumes the rest of the input.
   */
  lemma UnclosedTag(s: string)
    requires |s| >= 2 && s[0] == '<' && s[1] == '%' && (|s| > 2 ==> s[2] != '%')
    requires forall k | 4 <= k < |s| :: s[k] != '%'
    ensures ScanFrom(s, 0) == Scanned(None, |s|)
  {
    if |s| > 3 {
      var acc := "" + [s[3]];
      ContentLoopUnclosed(s, 4, acc);
      assert ContentFrom(s, 3, "") == ContentLoop(s, 4, acc);
      assert ScanFrom(s, 0) == CodeBlockFrom(s, 2);
    }
  }

  /** A header with no '%' after its first content character never closes. */
  lemma UnclosedHeader(s: string)
    requires |s| >= 3 && s[0] == '<' && s[1] == '%' && s[2] == '%'
    requires forall k | 4 <= k < |s| :: s[k] != '%'
    ensures ScanFrom(s, 0) == Scanned(None, |s|)
  {
    if |s| > 3 {
      var acc := "" + [s[3]];
      HeaderLoopUnclosed(s, 4, acc);
      assert HeaderContentFrom(s, 3, "") == HeaderLoop(s, 4, acc);
      assert ScanFrom(s, 0) == CodeBlockFrom(s, 2);
    }
  }

  /**
   * A header whose first inner '%' has a newline two places after it fails there,
   * whatever comes between and whatever follows.
   */
  lemma HeaderNewlineFails(s: string, j: nat)
    requires 4 <= j && j + 2 < |s| && s[0] == '<' && s[1] == '%' && s[2] == '%'
    requires forall k | 4 <= k < j :: s[k] != '%'
    requires s[j] == '%' && s[j + 2] == '\n'
    ensures ScanFrom(s, 0) == Scanned(None, j + 3)
  {
    var acc := "" + [s[3]];
    HeaderLoopSkip(s, 4, j, acc);
    assert HeaderLoop(s, j, acc + s[4..j]) == Scanned(None, j + 3);
    assert HeaderContentFrom(s, 3, "") == HeaderLoop(s, 4, acc);
    assert ScanFrom(s, 0) == CodeBlockFrom(s, 2);
  }
}
