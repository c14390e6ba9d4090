/**
 * The parser of src/ers/parser.rs: `parse_path` scans blocks until the scanner yields
 * nothing and wraps them, in order, in a template. Reading the file is not modelled:
 * the file's contents are a parameter.
 */
module Parsing {
  import opened Wrappers
  import opened Blocks
  import opened Scanning
  import opened ScannerProperties
  import opened Templates

  /** The blocks the scan loop collects when the cursor starts at i. */
  function ParseFrom(input: string, i: nat): (bs: seq<Block>)
    requires i <= |input|
    ensures |bs| <= |input| - i
    decreases |input| - i
  {
    var r := ScanFrom(input, i);
    match r.value
    case None => []
    case Some(b) => [b] + ParseFrom(input, r.next)
  }

  /** Where the scan loop stops: the cursor at the scan that yields nothing. */
  function ParseStop(input: string, i: nat): (j: nat)
    requires i <= |input|
    ensures i <= j <= |input|
    ensures ScanFrom(input, j).value.None?
    decreases |input| - i
  {
    var r := ScanFrom(input, i);
    match r.value
    case None => i
    case Some(_) => ParseStop(input, r.next)
  }

  /** The blocks of a whole template text. */
  function Parse(input: string): (bs: seq<Block>)
    ensures |bs| <= |input|
    ensures LinesAscending(bs)
  {
    ParseLines(input, 0);
    ParseFrom(input, 0)
  }

  /** One successful scan contributes its block in front of the rest of the parse. */
  lemma ParseStep(s: string, i: nat, j: nat)
    requires i <= j <= |s| && ScanFrom(s, i).value.Some? && ScanFrom(s, i).next == j
    ensures ParseFrom(s, i) == [ScanFrom(s, i).value.value] + ParseFrom(s, j)
  {
  }

  /** The template text a sequence of blocks stands for. */
  function Sources(bs: seq<Block>): string {
    ConcatMap(bs, Source)
  }

  predicate NoHeaders(bs: seq<Block>) {
    forall k | 0 <= k < |bs| :: bs[k].cls != Header
  }

  /**
   * Parsing undoes itself up to where it stops: the blocks' source texts, one after
   * the other, are the input from i to the stop, except that a header keeps a '%'
   * where its source had the character after an inner '%'. Without headers the
   * reconstruction is exact.
   */
  lemma {:induction false} ParseRoundTrip(input: string, i: nat)
    requires i <= |input|
    ensures PercentMasked(Sources(ParseFrom(input, i)), input[i..ParseStop(input, i)])
    ensures NoHeaders(ParseFrom(input, i)) ==>
              Sources(ParseFrom(input, i)) == input[i..ParseStop(input, i)]
    decreases |input| - i
  {
    var r := ScanFrom(input, i);
    if r.value.Some? {
      var b, n := r.value.value, r.next;
      var rest := ParseFrom(input, n);
      var stop := ParseStop(input, i);
      assert ParseFrom(input, i) == [b] + rest;
      assert stop == ParseStop(input, n);
      ParseRoundTrip(input, n);
      ScanSource(input, i);
      SourcesCons(b, rest);
      SliceSplit(input, i, n, stop);
      PercentMaskedAppend(Source(b), input[i..n], Sources(rest), input[n..stop]);
      NoHeadersCons(b, rest);
    }
  }

  lemma SliceSplit(s: string, i: nat, m: nat, n: nat)
    requires i <= m <= n <= |s|
    ensures s[i..n] == s[i..m] + s[m..n]
  {
  }

  lemma SourcesCons(b: Block, rest: seq<Block>)
    ensures Sources([b] + rest) == Source(b) + Sources(rest)
  {
    assert ([b] + rest)[0] == b && ([b] + rest)[1..] == rest;
  }

  lemma NoHeadersCons(b: Block, rest: seq<Block>)
    ensures NoHeaders([b] + rest) <==> b.cls != Header && NoHeaders(rest)
  {
    if NoHeaders([b] + rest) {
      assert ([b] + rest)[0] == b;
      forall k | 0 <= k < |rest| ensures rest[k].cls != Header {
        assert rest[k] == ([b] + rest)[k + 1];
      }
    } else if b.cls != Header && NoHeaders(rest) {
      forall k | 0 <= k < |[b] + rest| ensures ([b] + rest)[k].cls != Header {
        if k > 0 {
          assert ([b] + rest)[k] == rest[k - 1];
        }
      }
    }
  }

  /** Every block's line stamp lies between lo and hi. */
  predicate LinesWithin(bs: seq<Block>, lo: int, hi: int) {
    forall k | 0 <= k < |bs| :: lo <= bs[k].pos.lineNo <= hi
  }

  /** The line stamps never decrease along bs. */
  predicate LinesAscending(bs: seq<Block>) {
    forall j, k | 0 <= j < k < |bs| :: bs[j].pos.lineNo <= bs[k].pos.lineNo
  }

  /**
   * The line stamps of the parsed blocks never decrease, start no lower than the line
   * of the cursor and end no higher than the line where parsing stops.
   */
  lemma {:induction false} ParseLines(input: string, i: nat)
    requires i <= |input|
    ensures LinesWithin(ParseFrom(input, i), LineAt(input, i), LineAt(input, ParseStop(input, i)))
    ensures LinesAscending(ParseFrom(input, i))
    decreases |input| - i
  {
    var r := ScanFrom(input, i);
    if r.value.Some? {
      var rest := ParseFrom(input, r.next);
      var stop := ParseStop(input, i);
      assert stop == ParseStop(input, r.next);
      ParseLines(input, r.next);
      ScanLine(input, i);
      LineAtMonotone(input, i, r.next);
      LineAtMonotone(input, r.next, stop);
      LinesCons(r.value.value, rest, LineAt(input, i), LineAt(input, r.next), LineAt(input, stop));
    }
  }

  /** A scanned block carries the line reached when its scan ended. */
  lemma ScanLine(input: string, i: nat)
    requires i <= |input|
    ensures var r := ScanFrom(input, i);
            r.value.Some? ==> r.value.value.pos == Pos(LineAt(input, r.next))
  {
    ScanSource(input, i);
  }

  lemma LinesCons(b: Block, rest: seq<Block>, lo: int, mid: int, hi: int)
    requires lo <= b.pos.lineNo <= mid
    requires LinesWithin(rest, mid, hi) && LinesAscending(rest) && mid <= hi
    ensures LinesWithin([b] + rest, lo, hi) && LinesAscending([b] + rest)
  {
    var bs := [b] + rest;
    forall k | 0 <= k < |bs| ensures lo <= bs[k].pos.lineNo <= hi {
      if k > 0 { assert bs[k] == rest[k - 1]; }
    }
    forall j, k | 0 <= j < k < |bs| ensures bs[j].pos.lineNo <= bs[k].pos.lineNo {
      assert bs[k] == rest[k - 1];
      if j > 0 { assert bs[j] == rest[j - 1]; }
    }
  }

  /** An empty file parses to a template with no blocks. */
  lemma ParseEmpty()
    ensures Parse("") == []
  {
  }

  /**
   * A template text without '<' is one Text block holding all of it, stamped with the
   * line after its last character.
   */
  lemma PlainText(input: string)
    requires input != [] && '<' !in input
    ensures Parse(input) == [Block(Text, input, Pos(1 + Newlines(input)))]
  {
    var b := Block(Text, input, Pos(1 + Newlines(input)));
    assert LineAt(input, |input|) == 1 + Newlines(input) by {
      assert input[..|input|] == input;
    }
    PlainTextScan(input);
    assert ScanFrom(input, 0) == Scanned(Some(b), |input|);
    WholeScan(input, b);
  }

  /** A text consumed entirely by its first scan parses to that one block. */
  lemma WholeScan(input: string, b: Block)
    requires ScanFrom(input, 0) == Scanned(Some(b), |input|)
    ensures Parse(input) == [b]
  {
    assert ParseFrom(input, |input|) == [];
  }

  lemma PlainTextScan(input: string)
    requires input != [] && '<' !in input
    ensures ScanFrom(input, 0) == Scanned(Some(Block(Text, input, Pos(LineAt(input, |input|)))), |input|)
  {
    assert forall k | 0 <= k < |input| :: input[k] != '<';
    PlainRunScan(input, 0, |input|);
    assert input[0..|input|] == input;
  }

  /**
   * `Parser::parse_path` with the file's contents given: it scans until the scanner
   * yields nothing and always returns a template holding the blocks in scan order.
   */
  method ParsePath(path: string, contents: string) returns (t: Option<Template>)
    ensures t == Some(Template(path, Parse(contents)))
  {
    var blocks: seq<Block> := [];
    var scanner := new Scanner(contents, path);
    while true
      invariant scanner.Valid() && scanner.input == contents
      invariant blocks + ParseFrom(contents, scanner.index) == Parse(contents)
      decreases |contents| - scanner.index
    {
      ghost var before := scanner.index;
      var b := scanner.Scan();
      match b {
        case None =>
          assert ParseFrom(contents, before) == [];
          assert blocks == Parse(contents);
          break;
        case Some(block) =>
          assert ParseFrom(contents, before) == [block] + ParseFrom(contents, scanner.index);
          blocks := blocks + [block];
      }
    }
    return Some(Template(path, blocks));
  }
}
