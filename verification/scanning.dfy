/**
 * The scanner of src/ers/scanner.rs (duplicated in src/ers/lib.rs:154-406).
 *
 * The pure functions below say, for an input and a cursor position, what one call of
 * each scanning routine yields and where it leaves the cursor; the class `Scanner`
 * mirrors the Rust struct and its methods, and each method is proved to agree with
 * its function.
 */
module Scanning {
  import opened Wrappers
  import opened Blocks

  /**
   * The outcome of one scanning routine: the value it returns (None for end of input
   * or a malformed tag) and the cursor position it leaves behind.
   */
  datatype Scanned<+T> = Scanned(value: Option<T>, next: nat)

  /** Number of newline characters in s. */
  function Newlines(s: string): nat {
    if s == [] then 0
    else Newlines(s[..|s| - 1]) + (if s[|s| - 1] == '\n' then 1 else 0)
  }

  /** The scanner's line counter once the first j characters have been consumed. */
  function LineAt(input: string, j: nat): int
    requires j <= |input|
  {
    1 + Newlines(input[..j])
  }

  lemma LineAtZero(input: string)
    ensures LineAt(input, 0) == 1
  {
    assert input[..0] == [];
  }

  lemma LineAtNext(input: string, j: nat)
    requires j < |input|
    ensures LineAt(input, j + 1) == LineAt(input, j) + (if input[j] == '\n' then 1 else 0)
  {
    assert input[..j + 1][..j] == input[..j];
  }

  lemma {:induction false} NewlinesAppend(s: string, t: string)
    ensures Newlines(s + t) == Newlines(s) + Newlines(t)
    decreases |t|
  {
    if t == [] {
      assert s + t == s;
    } else {
      var t' := t[..|t| - 1];
      NewlinesAppend(s, t');
      assert (s + t)[..|s + t| - 1] == s + t';
    }
  }

  /** A text with no newline leaves the line counter where it was. */
  lemma {:induction false} NoNewlines(s: string)
    requires forall k | 0 <= k < |s| :: s[k] != '\n'
    ensures Newlines(s) == 0
    decreases |s|
  {
    if s != [] {
      NoNewlines(s[..|s| - 1]);
    }
  }

  /** Characters other than newlines leave the line counter unchanged. */
  lemma {:induction false} LineAtSkip(input: string, j: nat, k: nat)
    requires j <= k <= |input|
    requires forall m | j <= m < k :: input[m] != '\n'
    ensures LineAt(input, k) == LineAt(input, j)
    decreases k - j
  {
    if j < k {
      LineAtNext(input, j);
      LineAtSkip(input, j + 1, k);
    }
  }

  /** Consuming more input never lowers the line counter. */
  lemma {:induction false} LineAtMonotone(input: string, j: nat, k: nat)
    requires j <= k <= |input|
    ensures LineAt(input, j) <= LineAt(input, k)
    decreases k - j
  {
    if j < k {
      LineAtNext(input, j);
      LineAtMonotone(input, j + 1, k);
    }
  }

  // ----- scanTextBlock -----

  /** Where a run of text starting at i stops: at the first '<' at or after i, else at the end. */
  function TextRunEnd(input: string, i: nat): (j: nat)
    requires i <= |input|
    ensures i <= j <= |input|
    ensures j == |input| || input[j] == '<'
    ensures forall k | i <= k < j :: input[k] != '<'
    decreases |input| - i
  {
    if i == |input| || input[i] == '<' then i else TextRunEnd(input, i + 1)
  }

  /** `scanTextBlock(seed)` with the cursor at i. */
  function TextFrom(input: string, i: nat, seed: string): (r: Scanned<Block>)
    requires i <= |input|
    ensures i <= r.next <= |input| && (r.next == |input| || input[r.next] == '<')
    ensures forall k | i <= k < r.next :: input[k] != '<'
    ensures r.value.Some? && r.value.value.cls == Text
    ensures r.value.value.content == seed + input[i..r.next]
    ensures r.value.value.pos == Pos(LineAt(input, r.next))
  {
    var j := TextRunEnd(input, i);
    Scanned(Some(Block(Text, seed + input[i..j], Pos(LineAt(input, j)))), j)
  }

  // ----- scanContent -----

  /**
   * The loop of `scanContent`: `output` so far is `acc`, the cursor is at i. A '%'
   * followed by '>' ends the content; a '%' followed by any other character keeps both.
   * The content is always a contiguous piece of the input, and the scan only fails by
   * running out of input.
   */
  function ContentLoop(input: string, i: nat, acc: string): (r: Scanned<string>)
    requires i <= |input|
    ensures i <= r.next <= |input|
    ensures r.value.None? ==> r.next == |input|
    decreases |input| - i
  {
    if i == |input| then Scanned(None, i)
    else if input[i] == '%' then
      if i + 1 == |input| then Scanned(None, i + 1)
      else if input[i + 1] == '>' then Scanned(Some(acc), i + 2)
      else ContentLoop(input, i + 2, acc + ['%', input[i + 1]])
    else ContentLoop(input, i + 1, acc + [input[i]])
  }

  /**
   * What the content loop keeps: the accumulated text followed by the input up to the
   * closing `%>`, which it consumes.
   */
  lemma {:induction false} ContentLoopValue(input: string, i: nat, acc: string)
    requires i <= |input|
    ensures var r := ContentLoop(input, i, acc);
            r.value.Some? ==>
              i + 2 <= r.next && input[r.next - 2] == '%' && input[r.next - 1] == '>' &&
              r.value.value == acc + input[i..r.next - 2]
    decreases |input| - i
  {
    var r := ContentLoop(input, i, acc);
    if i < |input| && input[i] == '%' && i + 1 < |input| && input[i + 1] != '>' {
      ContentLoopValue(input, i + 2, acc + ['%', input[i + 1]]);
      if r.value.Some? {
        assert input[i..r.next - 2] == ['%', input[i + 1]] + input[i + 2..r.next - 2];
      }
    } else if i < |input| && input[i] != '%' {
      ContentLoopValue(input, i + 1, acc + [input[i]]);
      if r.value.Some? {
        assert input[i..r.next - 2] == [input[i]] + input[i + 1..r.next - 2];
      }
    }
  }

  /** One step of the content loop: "%>" closes it. */
  lemma ContentLoopClose(input: string, i: nat, acc: string)
    requires i + 1 < |input| && input[i] == '%' && input[i + 1] == '>'
    ensures ContentLoop(input, i, acc) == Scanned(Some(acc), i + 2)
  {
  }

  /** One step of the content loop: a '%' not followed by '>' is kept with the next character. */
  lemma ContentLoopPercent(input: string, i: nat, acc: string)
    requires i + 1 < |input| && input[i] == '%' && input[i + 1] != '>'
    ensures ContentLoop(input, i, acc) == ContentLoop(input, i + 2, acc + ['%', input[i + 1]])
  {
  }

  /** One step of the content loop: any other character is kept. */
  lemma ContentLoopChar(input: string, i: nat, acc: string)
    requires i < |input| && input[i] != '%'
    ensures ContentLoop(input, i, acc) == ContentLoop(input, i + 1, acc + [input[i]])
  {
  }

  /**
   * input[i..k] splits into the units the content loop reads without stopping: a
   * character other than '%', or a '%' followed by a character other than '>'.
   */
  predicate ContentPaired(input: string, i: nat, k: nat)
    requires i <= k <= |input|
    decreases k - i
  {
    i == k ||
    (input[i] != '%' && ContentPaired(input, i + 1, k)) ||
    (i + 2 <= k && input[i] == '%' && input[i + 1] != '>' && ContentPaired(input, i + 2, k))
  }

  /**
   * The content loop stops at the "%>" reached through the pairing: when input[i..k]
   * splits into units and "%>" follows, it yields the text up to k and consumes the "%>".
   */
  lemma {:induction false} ContentLoopFirstClose(input: string, i: nat, k: nat, acc: string)
    requires i <= k && k + 1 < |input| && input[k] == '%' && input[k + 1] == '>'
    requires ContentPaired(input, i, k)
    ensures ContentLoop(input, i, acc) == Scanned(Some(acc + input[i..k]), k + 2)
    decreases k - i
  {
    if i == k {
      assert acc + input[i..k] == acc;
    } else if input[i] != '%' {
      ContentLoopChar(input, i, acc);
      ContentLoopFirstClose(input, i + 1, k, acc + [input[i]]);
      assert input[i..k] == [input[i]] + input[i + 1..k];
      assert acc + input[i..k] == acc + [input[i]] + input[i + 1..k];
    } else {
      ContentLoopPercent(input, i, acc);
      ContentLoopFirstClose(input, i + 2, k, acc + ['%', input[i + 1]]);
      assert input[i..k] == ['%', input[i + 1]] + input[i + 2..k];
      assert acc + input[i..k] == acc + ['%', input[i + 1]] + input[i + 2..k];
    }
  }

  /** With the rest of the input split into units, or units and a final lone '%', the loop fails at the end. */
  lemma {:induction false} ContentLoopRunsOut(input: string, i: nat, j: nat, acc: string)
    requires i <= j <= |input| && ContentPaired(input, i, j)
    requires j == |input| || (input[j] == '%' && j + 1 == |input|)
    ensures ContentLoop(input, i, acc) == Scanned(None, |input|)
    decreases j - i
  {
    if i < j {
      if input[i] != '%' {
        ContentLoopRunsOut(input, i + 1, j, acc + [input[i]]);
      } else {
        ContentLoopRunsOut(input, i + 2, j, acc + ['%', input[i + 1]]);
      }
    }
  }

  /**
   * The only ways the content loop ends: after a "%>" that follows units, or at the end
   * of the input after units and possibly a lone '%'.
   */
  lemma {:induction false} ContentLoopShape(input: string, i: nat, acc: string)
    requires i <= |input|
    ensures var r := ContentLoop(input, i, acc);
            (r.value.Some? ==>
               i + 2 <= r.next && input[r.next - 2] == '%' && input[r.next - 1] == '>' &&
               ContentPaired(input, i, r.next - 2)) &&
            (r.value.None? ==>
               ContentPaired(input, i, |input|) ||
               (i < |input| && input[|input| - 1] == '%' && ContentPaired(input, i, |input| - 1)))
    decreases |input| - i
  {
    if i < |input| {
      if input[i] != '%' {
        ContentLoopShape(input, i + 1, acc + [input[i]]);
      } else if i + 1 < |input| && input[i + 1] != '>' {
        ContentLoopShape(input, i + 2, acc + ['%', input[i + 1]]);
      }
    }
  }

  /** At most one "%>" follows units from i: the content loop has a single possible end. */
  lemma ContentCloseUnique(input: string, i: nat, k1: nat, k2: nat)
    requires i <= k1 && k1 + 1 < |input| && input[k1] == '%' && input[k1 + 1] == '>'
    requires i <= k2 && k2 + 1 < |input| && input[k2] == '%' && input[k2 + 1] == '>'
    requires ContentPaired(input, i, k1) && ContentPaired(input, i, k2)
    ensures k1 == k2
  {
    ContentLoopFirstClose(input, i, k1, "");
    ContentLoopFirstClose(input, i, k2, "");
  }

  /**
   * `scanContent(prefix)` with the cursor at i: the first character is taken whatever
   * it is, then `ContentLoop` runs. The content is the prefix followed by the input
   * between i and the terminating `%>`, which is consumed but not kept.
   */
  function ContentFrom(input: string, i: nat, prefix: string): (r: Scanned<string>)
    requires i <= |input|
    ensures i <= r.next <= |input|
    ensures r.value.None? ==> r.next == |input|
    ensures r.value.Some? ==>
              i + 3 <= r.next && input[r.next - 2] == '%' && input[r.next - 1] == '>' &&
              r.value.value == prefix + input[i..r.next - 2]
    ensures r.value.Some? ==> ContentPaired(input, i + 1, r.next - 2)
    ensures r.value.None? ==>
              i == |input| || ContentPaired(input, i + 1, |input|) ||
              (i + 1 < |input| && input[|input| - 1] == '%' && ContentPaired(input, i + 1, |input| - 1))
  {
    if i == |input| then Scanned(None, i)
    else
      var r := ContentLoop(input, i + 1, prefix + [input[i]]);
      ContentLoopValue(input, i + 1, prefix + [input[i]]);
      ContentLoopShape(input, i + 1, prefix + [input[i]]);
      assert r.value.Some? ==> input[i..r.next - 2] == [input[i]] + input[i + 1..r.next - 2];
      r
  }

  // ----- scanHeaderContent -----

  /**
   * The loop of `scanHeaderContent`. After a '%' two more characters are read: the first
   * is dropped, and the second closes the header when it is '>', fails the scan when it
   * is a newline, and is otherwise kept after "%%". The scan fails only at the end of
   * the input or on a newline two places after a '%'.
   */
  function HeaderLoop(input: string, i: nat, acc: string): (r: Scanned<string>)
    requires i <= |input|
    ensures i <= r.next <= |input|
    decreases |input| - i
  {
    if i == |input| then Scanned(None, i)
    else if input[i] == '%' then
      if i + 2 >= |input| then Scanned(None, |input|)
      else if input[i + 2] == '>' then Scanned(Some(acc), i + 3)
      else if input[i + 2] == '\n' then Scanned(None, i + 3)
      else HeaderLoop(input, i + 3, acc + ['%', '%', input[i + 2]])
    else HeaderLoop(input, i + 1, acc + [input[i]])
  }

  /**
   * How the header loop ends: it fails at the end of the input or on a newline two
   * places after a '%', and succeeds on a '>' two places after a '%'.
   */
  lemma {:induction false} HeaderLoopEnd(input: string, i: nat, acc: string)
    requires i <= |input|
    ensures var r := HeaderLoop(input, i, acc);
            (r.value.None? ==>
               r.next == |input| ||
               (i + 3 <= r.next && input[r.next - 3] == '%' && input[r.next - 1] == '\n')) &&
            (r.value.Some? ==>
               i + 3 <= r.next && input[r.next - 3] == '%' && input[r.next - 1] == '>')
    decreases |input| - i
  {
    if i < |input| {
      if input[i] != '%' {
        HeaderLoopEnd(input, i + 1, acc + [input[i]]);
      } else if i + 2 < |input| && input[i + 2] != '>' && input[i + 2] != '\n' {
        HeaderLoopEnd(input, i + 3, acc + ['%', '%', input[i + 2]]);
      }
    }
  }

  /** One step of the header loop: '%', any character, then '>' closes it. */
  lemma HeaderLoopClose(input: string, i: nat, acc: string)
    requires i + 2 < |input| && input[i] == '%' && input[i + 2] == '>'
    ensures HeaderLoop(input, i, acc) == Scanned(Some(acc), i + 3)
  {
  }

  /** One step of the header loop: '%', any character, then a newline fails it. */
  lemma HeaderLoopBroken(input: string, i: nat, acc: string)
    requires i + 2 < |input| && input[i] == '%' && input[i + 2] == '\n'
    ensures HeaderLoop(input, i, acc) == Scanned(None, i + 3)
  {
  }

  /** One step of the header loop: otherwise a '%' and the character after next are kept after "%%". */
  lemma HeaderLoopPercent(input: string, i: nat, acc: string)
    requires i + 2 < |input| && input[i] == '%' && input[i + 2] != '>' && input[i + 2] != '\n'
    ensures HeaderLoop(input, i, acc) == HeaderLoop(input, i + 3, acc + ['%', '%', input[i + 2]])
  {
  }

  /** One step of the header loop: any character other than '%' is kept. */
  lemma HeaderLoopChar(input: string, i: nat, acc: string)
    requires i < |input| && input[i] != '%'
    ensures HeaderLoop(input, i, acc) == HeaderLoop(input, i + 1, acc + [input[i]])
  {
  }

  /**
   * input[i..k] splits into the units the header loop reads without stopping: a
   * character other than '%', or a '%', any character, and a third one that is neither
   * '>' nor a newline.
   */
  predicate HeaderPaired(input: string, i: nat, k: nat)
    requires i <= k <= |input|
    decreases k - i
  {
    i == k ||
    (input[i] != '%' && HeaderPaired(input, i + 1, k)) ||
    (i + 3 <= k && input[i] == '%' && input[i + 2] != '>' && input[i + 2] != '\n' &&
     HeaderPaired(input, i + 3, k))
  }

  /**
   * The header loop ends at the first terminator reached through the units: a '%',
   * any character, and '>' (success) or a newline (failure), consumed in full.
   */
  lemma {:induction false} HeaderLoopFirstEnd(input: string, i: nat, k: nat, acc: string)
    requires i <= k && k + 2 < |input| && input[k] == '%' && input[k + 2] in {'>', '\n'}
    requires HeaderPaired(input, i, k)
    ensures var r := HeaderLoop(input, i, acc);
            r.next == k + 3 && (r.value.Some? <==> input[k + 2] == '>')
    decreases k - i
  {
    if i < k {
      if input[i] != '%' {
        HeaderLoopFirstEnd(input, i + 1, k, acc + [input[i]]);
      } else {
        HeaderLoopFirstEnd(input, i + 3, k, acc + ['%', '%', input[i + 2]]);
      }
    }
  }

  /**
   * With the rest of the input split into units, or units and a '%' too close to the
   * end to be followed by two characters, the header loop fails at the end.
   */
  lemma {:induction false} HeaderLoopRunsOut(input: string, i: nat, j: nat, acc: string)
    requires i <= j <= |input| && HeaderPaired(input, i, j)
    requires j == |input| || (input[j] == '%' && |input| <= j + 2)
    ensures HeaderLoop(input, i, acc) == Scanned(None, |input|)
    decreases j - i
  {
    if i < j {
      if input[i] != '%' {
        HeaderLoopRunsOut(input, i + 1, j, acc + [input[i]]);
      } else {
        HeaderLoopRunsOut(input, i + 3, j, acc + ['%', '%', input[i + 2]]);
      }
    }
  }

  /**
   * The only ways the header loop ends: after a terminator that follows units, or at
   * the end of the input after units and possibly a '%' with fewer than two characters
   * after it.
   */
  lemma {:induction false} HeaderLoopShape(input: string, i: nat, acc: string)
    requires i <= |input|
    ensures var r := HeaderLoop(input, i, acc);
            (r.value.Some? ==>
               i + 3 <= r.next && input[r.next - 3] == '%' && input[r.next - 1] == '>' &&
               HeaderPaired(input, i, r.next - 3)) &&
            (r.value.None? ==>
               (i + 3 <= r.next && input[r.next - 3] == '%' && input[r.next - 1] == '\n' &&
                HeaderPaired(input, i, r.next - 3)) ||
               (r.next == |input| &&
                (HeaderPaired(input, i, |input|) ||
                 (i < |input| && input[|input| - 1] == '%' && HeaderPaired(input, i, |input| - 1)) ||
                 (i + 1 < |input| && input[|input| - 2] == '%' && HeaderPaired(input, i, |input| - 2)))))
    decreases |input| - i
  {
    if i < |input| {
      if input[i] != '%' {
        HeaderLoopShape(input, i + 1, acc + [input[i]]);
      } else if i + 2 < |input| && input[i + 2] != '>' && input[i + 2] != '\n' {
        HeaderLoopShape(input, i + 3, acc + ['%', '%', input[i + 2]]);
      }
    }
  }

  /** At most one terminator follows units from i: the header loop has a single possible end. */
  lemma HeaderEndUnique(input: string, i: nat, k1: nat, k2: nat)
    requires i <= k1 && k1 + 2 < |input| && input[k1] == '%' && input[k1 + 2] in {'>', '\n'}
    requires i <= k2 && k2 + 2 < |input| && input[k2] == '%' && input[k2 + 2] in {'>', '\n'}
    requires HeaderPaired(input, i, k1) && HeaderPaired(input, i, k2)
    ensures k1 == k2
  {
    HeaderLoopFirstEnd(input, i, k1, "");
    HeaderLoopFirstEnd(input, i, k2, "");
  }

  /** `scanHeaderContent(prefix)` with the cursor at i. */
  function HeaderContentFrom(input: string, i: nat, prefix: string): (r: Scanned<string>)
    requires i <= |input|
    ensures i <= r.next <= |input|
    ensures r.value.None? ==>
              r.next == |input| ||
              (i + 4 <= r.next && input[r.next - 3] == '%' && input[r.next - 1] == '\n')
    ensures r.value.Some? ==> i + 4 <= r.next && input[r.next - 3] == '%' && input[r.next - 1] == '>'
    ensures r.value.Some? ==> HeaderPaired(input, i + 1, r.next - 3)
    ensures r.value.None? ==>
              i == |input| ||
              (i + 4 <= r.next && input[r.next - 3] == '%' && input[r.next - 1] == '\n' &&
               HeaderPaired(input, i + 1, r.next - 3)) ||
              (r.next == |input| &&
               (HeaderPaired(input, i + 1, |input|) ||
                (i + 1 < |input| && input[|input| - 1] == '%' && HeaderPaired(input, i + 1, |input| - 1)) ||
                (i + 2 < |input| && input[|input| - 2] == '%' && HeaderPaired(input, i + 1, |input| - 2))))
  {
    if i == |input| then Scanned(None, i)
    else
      HeaderLoopEnd(input, i + 1, prefix + [input[i]]);
      HeaderLoopShape(input, i + 1, prefix + [input[i]]);
      HeaderLoop(input, i + 1, prefix + [input[i]])
  }

  // ----- scanBlock, scanCodeBlock and the block wrappers -----

  /** Wraps scanned content as a block of class `cls`, stamped with the line where the scan ended. */
  function Stamp(input: string, cls: Class, r: Scanned<string>): (s: Scanned<Block>)
    requires r.next <= |input|
    ensures s.next == r.next && (s.value.Some? <==> r.value.Some?)
    ensures s.value.Some? ==>
              s.value.value.cls == cls && s.value.value.content == r.value.value &&
              s.value.value.pos.lineNo == 1 + Newlines(input[..r.next])
  {
    Scanned(if r.value.Some? then Some(Block(cls, r.value.value, Pos(LineAt(input, r.next)))) else None,
            r.next)
  }

  /** `scanCodeBlock` with the cursor just after "<%": the next character picks the class. */
  function CodeBlockFrom(input: string, i: nat): (r: Scanned<Block>)
    requires i <= |input|
    ensures i <= r.next <= |input|
    ensures r.value.None? ==> r.next == |input| || (i < |input| && input[i] == '%')
    ensures r.value.Some? ==>
              i + 3 <= r.next && input[r.next - 1] == '>' &&
              r.value.value.pos == Pos(LineAt(input, r.next)) &&
              (r.value.value.cls == Declaration <==> input[i] == '!') &&
              (r.value.value.cls == Header <==> input[i] == '%') &&
              (r.value.value.cls == Print <==> input[i] == '=') &&
              (r.value.value.cls == Code <==> input[i] !in {'!', '%', '='})
  {
    if i == |input| then Scanned(None, i)
    else if input[i] == '!' then Stamp(input, Declaration, ContentFrom(input, i + 1, ""))
    else if input[i] == '%' then Stamp(input, Header, HeaderContentFrom(input, i + 1, ""))
    else if input[i] == '=' then Stamp(input, Print, ContentFrom(input, i + 1, ""))
    else
      var r := ContentFrom(input, i + 1, "");
      Scanned(if r.value.Some? then Some(Block(Code, [input[i]] + r.value.value, Pos(LineAt(input, r.next))))
              else None,
              r.next)
  }

  /** `scanBlock` with the cursor just after a '<'. */
  function BlockFrom(input: string, i: nat): (r: Scanned<Block>)
    requires i <= |input|
    ensures i <= r.next <= |input|
    ensures r.value.Some? ==> (r.value.value.cls == Text <==> i == |input| || input[i] != '%')
    ensures r.value.None? ==> i < |input| && input[i] == '%'
  {
    if i == |input| then Scanned(Some(Block(Text, "<", Pos(LineAt(input, i)))), i)
    else if input[i] == '%' then CodeBlockFrom(input, i + 1)
    else TextFrom(input, i + 1, ['<', input[i]])
  }

  /**
   * `scan` with the cursor at i. A block is produced only after consuming at least one
   * character, which is what makes the parser's loop terminate.
   */
  function ScanFrom(input: string, i: nat): (r: Scanned<Block>)
    requires i <= |input|
    ensures i <= r.next <= |input|
    ensures r.value.Some? ==> i < r.next
  {
    if i == |input| then Scanned(None, i)
    else if input[i] == '<' then BlockFrom(input, i + 1)
    else TextFrom(input, i + 1, [input[i]])
  }

  // ----- The scanner object -----

  /**
   * `Scanner`: a cursor over the characters of the template (the `Peekable` stream is
   * the sequence `input` read from position `index`) and the current line.
   */
  class Scanner {
    const input: string
    var index: nat
    const path: string
    var pos: Pos
    var currentLine: int

    /** The line counter is one more than the number of newlines consumed so far. */
    ghost predicate Valid()
      reads this
    {
      index <= |input| && currentLine == LineAt(input, index)
    }

    /** `Scanner::new`. */
    constructor (input: string, path: string)
      ensures Valid()
      ensures this.input == input && this.path == path
      ensures index == 0 && currentLine == 1 && pos == Pos(1)
    {
      this.input := input;
      this.path := path;
      index := 0;
      pos := Pos(1);
      currentLine := 1;
    }

    /** `read_char`: consumes the next character, counting newlines. */
    method ReadChar() returns (c: Option<char>)
      requires Valid()
      modifies this`index, this`currentLine
      ensures Valid()
      ensures old(index) < |input| ==> c == Some(input[old(index)]) && index == old(index) + 1
      ensures old(index) == |input| ==> c == None && index == old(index)
    {
      if index == |input| {
        return None;
      }
      var character := input[index];
      LineAtNext(input, index);
      index := index + 1;
      if character == '\n' {
        currentLine := currentLine + 1;
      }
      return Some(character);
    }

    /** `peek_char`: the next character, if any, without consuming it. */
    method PeekChar() returns (c: Option<char>)
      requires Valid()
      ensures c.None? <==> index == |input|
      ensures c.Some? ==> c.value == input[index]
    {
      if index == |input| {
        return None;
      }
      return Some(input[index]);
    }

    /** `scan`: the next block, or None at end of input or on a malformed tag. */
    method Scan() returns (b: Option<Block>)
      requires Valid()
      modifies this`index, this`currentLine
      ensures Valid()
      ensures Scanned(b, index) == ScanFrom(input, old(index))
    {
      var c := ReadChar();
      match c {
        case None =>
          return None;
        case Some(ch) =>
          if ch == '<' {
            b := ScanBlock();
          } else {
            b := ScanTextBlock([ch]);
          }
      }
    }

    /** `scanBlock`: what follows a '<'. */
    method ScanBlock() returns (b: Option<Block>)
      requires Valid()
      modifies this`index, this`currentLine
      ensures Valid()
      ensures Scanned(b, index) == BlockFrom(input, old(index))
    {
      var c := ReadChar();
      match c {
        case None =>
          return Some(Block(Text, "<", Pos(currentLine)));
        case Some(ch) =>
          if ch == '%' {
            b := ScanCodeBlock();
          } else {
            b := ScanTextBlock(['<', ch]);
          }
      }
    }

    /** `scanCodeBlock`: dispatches on the character after "<%". */
    method ScanCodeBlock() returns (b: Option<Block>)
      requires Valid()
      modifies this`index, this`currentLine
      ensures Valid()
      ensures Scanned(b, index) == CodeBlockFrom(input, old(index))
    {
      var c := ReadChar();
      match c {
        case None =>
          return None;
        case Some(ch) =>
          if ch == '!' {
            b := ScanDeclarationBlock();
          } else if ch == '%' {
            b := ScanHeaderBlock();
          } else if ch == '=' {
            b := ScanPrintBlock();
          } else {
            var ctn := ScanContent("");
            match ctn {
              case None =>
                return None;
              case Some(s) =>
                return Some(Block(Code, [ch] + s, Pos(currentLine)));
            }
          }
      }
    }

    /** `scanDeclarationBlock`. */
    method ScanDeclarationBlock() returns (b: Option<Block>)
      requires Valid()
      modifies this`index, this`currentLine
      ensures Valid()
      ensures Scanned(b, index) == Stamp(input, Declaration, ContentFrom(input, old(index), ""))
    {
      var output := "";
      var ctn := ScanContent("");
      match ctn {
        case None =>
          return None;
        case Some(s) =>
          output := output + s;
          assert output == s;
      }
      return Some(Block(Declaration, output, Pos(currentLine)));
    }

    /** `scanHeaderBlock`. */
    method ScanHeaderBlock() returns (b: Option<Block>)
      requires Valid()
      modifies this`index, this`currentLine
      ensures Valid()
      ensures Scanned(b, index) == Stamp(input, Header, HeaderContentFrom(input, old(index), ""))
    {
      var output := "";
      var ctn := ScanHeaderContent("");
      match ctn {
        case None =>
          return None;
        case Some(s) =>
          output := output + s;
          assert output == s;
      }
      return Some(Block(Header, output, Pos(currentLine)));
    }

    /** `scanPrintBlock`. */
    method ScanPrintBlock() returns (b: Option<Block>)
      requires Valid()
      modifies this`index, this`currentLine
      ensures Valid()
      ensures Scanned(b, index) == Stamp(input, Print, ContentFrom(input, old(index), ""))
    {
      var output := "";
      var ctn := ScanContent("");
      match ctn {
        case None =>
          return None;
        case Some(s) =>
          output := output + s;
          assert output == s;
      }
      return Some(Block(Print, output, Pos(currentLine)));
    }

    /** `scanTextBlock(s)`: the seed, then characters up to the next '<' (left unread). */
    method ScanTextBlock(s: string) returns (b: Option<Block>)
      requires Valid()
      modifies this`index, this`currentLine
      ensures Valid()
      ensures Scanned(b, index) == TextFrom(input, old(index), s)
    {
      var output := s;
      while true
        invariant Valid() && old(index) <= index
        invariant output == s + input[old(index)..index]
        invariant TextRunEnd(input, index) == TextRunEnd(input, old(index))
        decreases |input| - index
      {
        var c := PeekChar();
        match c {
          case None =>
            break;
          case Some(ch) =>
            if ch == '<' {
              break;
            }
            var read := ReadChar();
            output := output + [read.value];
        }
      }
      return Some(Block(Text, output, Pos(currentLine)));
    }

    /** `scanContent(prefix)`: everything up to the closing `%>`. */
    method ScanContent(prefix: string) returns (r: Option<string>)
      requires Valid()
      modifies this`index, this`currentLine
      ensures Valid()
      ensures Scanned(r, index) == ContentFrom(input, old(index), prefix)
    {
      var output := prefix;
      var first := ReadChar();
      match first {
        case None =>
          return None;
        case Some(val) =>
          output := output + [val];
          while true
            invariant Valid() && old(index) < index
            invariant ContentLoop(input, index, output) == ContentFrom(input, old(index), prefix)
            decreases |input| - index
          {
            ghost var at := index;
            var c := ReadChar();
            match c {
              case None =>
                assert ContentLoop(input, at, output) == Scanned(None, at);
                return None;
              case Some(ch) =>
                if ch == '%' {
                  var innerC := ReadChar();
                  match innerC {
                    case None =>
                      assert ContentLoop(input, at, output) == Scanned(None, at + 1);
                      return None;
                    case Some(inner) =>
                      if inner == '>' {
                        ContentLoopClose(input, at, output);
                        break;
                      }
                      ContentLoopPercent(input, at, output);
                      output := output + ['%', inner];
                  }
                } else {
                  ContentLoopChar(input, at, output);
                  output := output + [ch];
                }
            }
          }
          return Some(output);
      }
    }

    /**
     * `scanHeaderContent(prefix)`. In the source the test after the first read that
     * follows a '%' compares that '%' again, so it always holds; the two branches it
     * guards (a newline test and keeping "%" plus that character) are never reached
     * and are not written here.
     */
    method ScanHeaderContent(prefix: string) returns (r: Option<string>)
      requires Valid()
      modifies this`index, this`currentLine
      ensures Valid()
      ensures Scanned(r, index) == HeaderContentFrom(input, old(index), prefix)
    {
      var output := prefix;
      var first := ReadChar();
      match first {
        case None =>
          return None;
        case Some(val) =>
          output := output + [val];
          while true
            invariant Valid() && old(index) < index
            invariant HeaderLoop(input, index, output) == HeaderContentFrom(input, old(index), prefix)
            decreases |input| - index
          {
            ghost var at := index;
            var c := ReadChar();
            match c {
              case None =>
                assert HeaderLoop(input, at, output) == Scanned(None, at);
                return None;
              case Some(ch) =>
                if ch == '%' {
                  var innerC := ReadChar();
                  match innerC {
                    case None =>
                      assert HeaderLoop(input, at, output) == Scanned(None, at + 1);
                      return None;
                    case Some(_) =>
                      var closing := ReadChar();
                      match closing {
                        case None =>
                          assert HeaderLoop(input, at, output) == Scanned(None, at + 2);
                          return None;
                        case Some(inner) =>
                          if inner == '>' {
                            HeaderLoopClose(input, at, output);
                            break;
                          } else if inner == '\n' {
                            HeaderLoopBroken(input, at, output);
                            return None;
                          }
                          HeaderLoopPercent(input, at, output);
                          output := output + ['%', '%', inner];
                      }
                  }
                } else {
                  HeaderLoopChar(input, at, output);
                  output := output + [ch];
                }
            }
          }
          return Some(output);
      }
    }
  }
}
