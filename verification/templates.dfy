/**
 * The template assembler of src/ers/template.rs (duplicated in src/ers/lib.rs:19-93):
 * writes all Header blocks, then all Declaration blocks, then every other block, each
 * group in its original order, followed by a fixed trailer.
 */
module Templates {
  import opened Wrappers
  import opened Blocks

  /** Declared by the source, never returned by it. */
  datatype TemplateWriteError = DeclarationNotFound

  /** A template: where it was read from and its blocks in scanning order. */
  datatype Template = Template(path: string, blocks: seq<Block>)

  /** Which of the three passes writes a block of class c: headers, declarations, the rest. */
  function Rank(c: Class): nat {
    match c
    case Header => 0
    case Declaration => 1
    case _ => 2
  }

  /** The blocks of bs written by pass k (the source's filtered iterators), in order. */
  function Pass(bs: seq<Block>, k: nat): seq<Block> {
    if bs == [] then []
    else (if Rank(bs[0].cls) == k then [bs[0]] else []) + Pass(bs[1..], k)
  }

  /** The order in which `write_formatted` writes the blocks. */
  function Ordered(bs: seq<Block>): seq<Block> {
    Pass(bs, 0) + Pass(bs, 1) + Pass(bs, 2)
  }

  /** The images of bs under f, one after the other. */
  function ConcatMap<T>(bs: seq<T>, f: T -> string): string {
    if bs == [] then [] else f(bs[0]) + ConcatMap(bs[1..], f)
  }

  /** The renderings of bs, one after the other. */
  function RenderAll(bs: seq<Block>): string {
    ConcatMap(bs, Rendering)
  }

  /** The two `write_line` calls that close the generated function. */
  const FlushLine: string := "writer.flush();"
  const ClosingBrace: string := "}\n"
  const Trailer: string := FlushLine + "\n" + ClosingBrace + "\n"

  /** Everything `write_formatted` writes for template t. */
  function Formatted(t: Template): (s: string)
    ensures |s| >= |Trailer| && s[|s| - |Trailer|..] == Trailer
  {
    RenderAll(Ordered(t.blocks)) + Trailer
  }

  predicate SortedByRank(s: seq<Block>) {
    forall a, b | 0 <= a < b < |s| :: Rank(s[a].cls) <= Rank(s[b].cls)
  }

  // ----- Lemmas about the three passes -----

  lemma {:induction false} PassAppend(bs: seq<Block>, cs: seq<Block>, k: nat)
    ensures Pass(bs + cs, k) == Pass(bs, k) + Pass(cs, k)
    decreases |bs|
  {
    if bs == [] {
      assert bs + cs == cs;
    } else {
      var head := if Rank(bs[0].cls) == k then [bs[0]] else [];
      assert (bs + cs)[0] == bs[0] && (bs + cs)[1..] == bs[1..] + cs;
      assert Pass(bs + cs, k) == head + Pass(bs[1..] + cs, k);
      PassAppend(bs[1..], cs, k);
      assert Pass(bs, k) == head + Pass(bs[1..], k);
    }
  }

  /** Pass k keeps exactly the blocks of rank k. */
  lemma {:induction false} PassRanks(bs: seq<Block>, k: nat)
    ensures forall b | b in Pass(bs, k) :: b in bs && Rank(b.cls) == k
    ensures forall b | b in bs && Rank(b.cls) == k :: b in Pass(bs, k)
    decreases |bs|
  {
    if bs != [] {
      PassRanks(bs[1..], k);
      assert bs == [bs[0]] + bs[1..];
    }
  }

  /** A pass over blocks none of which has rank k is empty. */
  lemma {:induction false} PassNone(bs: seq<Block>, k: nat)
    requires forall b | b in bs :: Rank(b.cls) != k
    ensures Pass(bs, k) == []
    decreases |bs|
  {
    if bs != [] {
      assert bs[0] in bs;
      assert forall b | b in bs[1..] :: b in bs;
      PassNone(bs[1..], k);
    }
  }

  /** Filtering twice is filtering once; a pass of another rank keeps nothing. */
  lemma PassOfPass(bs: seq<Block>, k: nat, j: nat)
    ensures Pass(Pass(bs, k), j) == if j == k then Pass(bs, k) else []
  {
    PassRanks(bs, k);
    if j == k {
      PassIdempotent(bs, k);
    } else {
      PassNone(Pass(bs, k), j);
    }
  }

  lemma {:induction false} PassIdempotent(bs: seq<Block>, k: nat)
    ensures Pass(Pass(bs, k), k) == Pass(bs, k)
    decreases |bs|
  {
    if bs != [] {
      var head := if Rank(bs[0].cls) == k then [bs[0]] else [];
      PassIdempotent(bs[1..], k);
      PassAppend(head, Pass(bs[1..], k), k);
    }
  }

  lemma {:induction false} PassCounts(bs: seq<Block>)
    ensures |Pass(bs, 0)| + |Pass(bs, 1)| + |Pass(bs, 2)| == |bs|
    ensures multiset(Pass(bs, 0)) + multiset(Pass(bs, 1)) + multiset(Pass(bs, 2)) == multiset(bs)
    decreases |bs|
  {
    if bs != [] {
      var b, rest := bs[0], bs[1..];
      assert bs == [b] + rest;
      PassCounts(rest);
      PassCons(b, rest, 0);
      PassCons(b, rest, 1);
      PassCons(b, rest, 2);
      PassOnce(b);
    }
  }

  /** Exactly one of the three passes takes a given block. */
  lemma PassOnce(b: Block)
    ensures |Pass([b], 0)| + |Pass([b], 1)| + |Pass([b], 2)| == 1
    ensures multiset(Pass([b], 0)) + multiset(Pass([b], 1)) + multiset(Pass([b], 2)) == multiset{b}
  {
    PassSingle(b, 0);
    PassSingle(b, 1);
    PassSingle(b, 2);
  }

  /**
   * `write_formatted` writes every block exactly once: its order is a permutation of
   * the template's blocks.
   */
  lemma OrderedIsPermutation(bs: seq<Block>)
    ensures |Ordered(bs)| == |bs|
    ensures multiset(Ordered(bs)) == multiset(bs)
  {
    PassCounts(bs);
  }

  /** All Header blocks come first, then all Declaration blocks, then all the others. */
  lemma OrderedIsSortedByRank(bs: seq<Block>)
    ensures SortedByRank(Ordered(bs))
  {
    var o := Ordered(bs);
    forall a | 0 <= a < |o|
      ensures Rank(o[a].cls) == if a < |Pass(bs, 0)| then 0 else if a < |Pass(bs, 0)| + |Pass(bs, 1)| then 1 else 2
    {
      OrderedRankAt(bs, a);
    }
  }

  /** The rank of the block at position a of the ordering: its pass. */
  lemma OrderedRankAt(bs: seq<Block>, a: nat)
    requires a < |Ordered(bs)|
    ensures var n0, n1 := |Pass(bs, 0)|, |Pass(bs, 1)|;
            Rank(Ordered(bs)[a].cls) == if a < n0 then 0 else if a < n0 + n1 then 1 else 2
  {
    var o := Ordered(bs);
    var n0, n1 := |Pass(bs, 0)|, |Pass(bs, 1)|;
    if a < n0 {
      PassRanks(bs, 0);
      assert o[a] == Pass(bs, 0)[a];
      assert o[a] in Pass(bs, 0);
    } else if a < n0 + n1 {
      PassRanks(bs, 1);
      assert o[a] == Pass(bs, 1)[a - n0];
      assert o[a] in Pass(bs, 1);
    } else {
      PassRanks(bs, 2);
      assert o[a] == Pass(bs, 2)[a - n0 - n1];
      assert o[a] in Pass(bs, 2);
    }
  }

  /** Within each group the original relative order is kept (the ordering is stable). */
  lemma OrderedIsStable(bs: seq<Block>, k: nat)
    requires k <= 2
    ensures Pass(Ordered(bs), k) == Pass(bs, k)
  {
    PassAppend(Pass(bs, 0) + Pass(bs, 1), Pass(bs, 2), k);
    PassAppend(Pass(bs, 0), Pass(bs, 1), k);
    PassOfPass(bs, 0, k);
    PassOfPass(bs, 1, k);
    PassOfPass(bs, 2, k);
  }

  /** A rank-sorted sequence is its three passes one after the other. */
  lemma {:induction false} SortedSplits(s: seq<Block>)
    requires SortedByRank(s)
    ensures s == Pass(s, 0) + Pass(s, 1) + Pass(s, 2)
    decreases |s|
  {
    if s != [] {
      var first, rest := s[0], s[1..];
      SortedTail(s);
      SortedSplits(rest);
      var p0, p1, p2 := Pass(rest, 0), Pass(rest, 1), Pass(rest, 2);
      assert rest == p0 + p1 + p2;
      assert s == [first] + rest;
      var r := Rank(first.cls);
      assert Pass(s, 0) == (if r == 0 then [first] else []) + p0;
      assert Pass(s, 1) == (if r == 1 then [first] else []) + p1;
      assert Pass(s, 2) == (if r == 2 then [first] else []) + p2;
      if r >= 1 {
        SortedHeadBelow(s, 0);
      }
      if r == 2 {
        SortedHeadBelow(s, 1);
      }
    }
  }

  lemma SortedTail(s: seq<Block>)
    requires s != [] && SortedByRank(s)
    ensures SortedByRank(s[1..])
  {
    var rest := s[1..];
    forall a, b | 0 <= a < b < |rest| ensures Rank(rest[a].cls) <= Rank(rest[b].cls) {
      assert rest[a] == s[a + 1] && rest[b] == s[b + 1];
    }
  }

  /** When a sorted sequence starts above rank k, the rest has no block of rank k. */
  lemma SortedHeadBelow(s: seq<Block>, k: nat)
    requires s != [] && SortedByRank(s) && Rank(s[0].cls) > k
    ensures Pass(s[1..], k) == []
  {
    var rest := s[1..];
    forall b | b in rest ensures Rank(b.cls) != k {
      var a :| 0 <= a < |rest| && rest[a] == b;
      assert s[a + 1] == b;
    }
    PassNone(rest, k);
  }

  /**
   * The ordering is fully determined by its properties: any arrangement that is sorted
   * by pass and keeps each pass's blocks in their original order is `Ordered(bs)`.
   */
  lemma OrderedIsUnique(bs: seq<Block>, s: seq<Block>)
    requires SortedByRank(s)
    requires forall k | 0 <= k <= 2 :: Pass(s, k) == Pass(bs, k)
    ensures s == Ordered(bs)
  {
    SortedSplits(s);
  }

  /** The classes of the blocks of the repository's `write_formatted` test, in order. */
  predicate TestClasses(bs: seq<Block>) {
    |bs| == 9 &&
    bs[0].cls == Text && bs[1].cls == Header && bs[2].cls == Declaration && bs[3].cls == Code &&
    bs[4].cls == Text && bs[5].cls == Print && bs[6].cls == Text && bs[7].cls == Code && bs[8].cls == Text
  }

  /**
   * The template of the repository's `write_formatted` test: Text, Header, Declaration,
   * Code, Text, Print, Text, Code, Text are written as the header, the declaration, and
   * then the other seven in their original order.
   */
  lemma ReorderExample(bs: seq<Block>)
    requires TestClasses(bs)
    ensures Ordered(bs) == [bs[1], bs[2], bs[0]] + bs[3..]
  {
    ExampleFront(bs, 0);
    ExampleFront(bs, 1);
    ExampleRest(bs);
    assert [bs[1]] + [bs[2]] + ([bs[0]] + bs[3..]) == [bs[1], bs[2], bs[0]] + bs[3..];
  }

  /** The third pass takes the first block and the last six. */
  lemma ExampleRest(bs: seq<Block>)
    requires TestClasses(bs)
    ensures Pass(bs, 2) == [bs[0]] + bs[3..]
  {
    ExampleTail(bs, 2);
    PassFrom(bs, 2, 2);
    assert Pass(bs[2..], 2) == bs[3..];
    PassFrom(bs, 1, 2);
    assert Pass(bs[1..], 2) == bs[3..];
    assert bs[0..] == bs;
    PassFrom(bs, 0, 2);
  }

  /** The blocks of the repository's `write_formatted` test, in template order. */
  function WriteTestBlocks(): seq<Block> {
    [Block(Text, "<html>", Pos(4)),
     Block(Header, "use std::io;", Pos(1)),
     Block(Declaration, "pub fn Template(writer: &mut Writer, i : int)", Pos(2)),
     Block(Code, "for n in range(0, i - 1) {", Pos(3)),
     Block(Text, "<p class=\"foobar\">", Pos(5)),
     Block(Print, "n + 1", Pos(6)),
     Block(Text, "</p>", Pos(7)),
     Block(Code, "}", Pos(8)),
     Block(Text, "</html>", Pos(9))]
  }

  /**
   * The repository's `write_formatted` test on a fresh writer: the header is written
   * first, then the declaration, then the other seven blocks in order, then the
   * trailer, and the call reports nine blocks.
   */
  method WriteTest() returns (w: Writer, r: Result<int, TemplateWriteError>)
    ensures r == Ok(9)
    ensures var bs := WriteTestBlocks();
            w.written == RenderAll([bs[1], bs[2], bs[0]] + bs[3..]) + Trailer
  {
    w, r := WriteExample(WriteTestBlocks());
  }

  /** `write_formatted` on a fresh writer, for any nine blocks with the test's classes. */
  method WriteExample(bs: seq<Block>) returns (w: Writer, r: Result<int, TemplateWriteError>)
    requires TestClasses(bs)
    ensures r == Ok(9)
    ensures w.written == RenderAll([bs[1], bs[2], bs[0]] + bs[3..]) + Trailer
  {
    var t := Template("foo.ers", bs);
    w := new Writer();
    r := WriteFormatted(t, w);
    FormattedExample(t);
  }

  /** What `write_formatted` writes for a template with the test's classes. */
  lemma FormattedExample(t: Template)
    requires TestClasses(t.blocks)
    ensures var bs := t.blocks;
            Formatted(t) == RenderAll([bs[1], bs[2], bs[0]] + bs[3..]) + Trailer
  {
    ReorderExample(t.blocks);
  }

  /** The header and the declaration: pass k takes block k + 1 of the first three, nothing else. */
  lemma ExampleFront(bs: seq<Block>, k: nat)
    requires TestClasses(bs) && k <= 1
    ensures Pass(bs, k) == [bs[k + 1]]
  {
    ExampleTail(bs, k);
    PassFrom(bs, 2, k);
    PassFrom(bs, 1, k);
    PassFrom(bs, 0, k);
    assert bs[0..] == bs;
  }

  /** The last six blocks all go to the third pass. */
  lemma ExampleTail(bs: seq<Block>, k: nat)
    requires TestClasses(bs) && k <= 2
    ensures Pass(bs[3..], k) == if k == 2 then bs[3..] else []
  {
    assert bs[9..] == [];
    PassFrom(bs, 8, k);
    assert bs[8..] == [bs[8]] + bs[9..];
    PassFrom(bs, 7, k);
    assert bs[7..] == [bs[7]] + bs[8..];
    PassFrom(bs, 6, k);
    assert bs[6..] == [bs[6]] + bs[7..];
    PassFrom(bs, 5, k);
    assert bs[5..] == [bs[5]] + bs[6..];
    PassFrom(bs, 4, k);
    assert bs[4..] == [bs[4]] + bs[5..];
    PassFrom(bs, 3, k);
    assert bs[3..] == [bs[3]] + bs[4..];
  }

  /** Pass k over the blocks from m on: what it takes of block m, then of the rest. */
  lemma PassFrom(bs: seq<Block>, m: nat, k: nat)
    requires m < |bs|
    ensures Pass(bs[m..], k) == (if Rank(bs[m].cls) == k then [bs[m]] else []) + Pass(bs[m + 1..], k)
  {
    assert bs[m..][0] == bs[m] && bs[m..][1..] == bs[m + 1..];
  }

  lemma PassSingle(b: Block, k: nat)
    ensures Pass([b], k) == if Rank(b.cls) == k then [b] else []
  {
    assert [b][1..] == [];
  }

  lemma PassCons(b: Block, bs: seq<Block>, k: nat)
    ensures Pass([b] + bs, k) == Pass([b], k) + Pass(bs, k)
  {
    assert ([b] + bs)[1..] == bs;
    PassSingle(b, k);
  }


  lemma {:induction false} ConcatMapSplit<T>(a: seq<T>, b: seq<T>, f: T -> string)
    ensures ConcatMap(a + b, f) == ConcatMap(a, f) + ConcatMap(b, f)
    decreases |a|
  {
    if a == [] {
      assert a + b == b;
    } else {
      ConcatMapSplit(a[1..], b, f);
      assert (a + b)[0] == a[0] && (a + b)[1..] == a[1..] + b;
    }
  }

  lemma RenderAllSplit(a: seq<Block>, b: seq<Block>)
    ensures RenderAll(a + b) == RenderAll(a) + RenderAll(b)
  {
    ConcatMapSplit(a, b, Rendering);
  }

  /** The writing of one pass: one of the three `for` loops of `write_formatted`. */
  method WritePass(bs: seq<Block>, k: nat, w: Writer) returns (count: int)
    modifies w
    ensures w.written == old(w.written) + RenderAll(Pass(bs, k))
    ensures count == |Pass(bs, k)|
  {
    count := 0;
    var i := 0;
    while i < |bs|
      invariant 0 <= i <= |bs|
      invariant w.written == old(w.written) + RenderAll(Pass(bs[..i], k))
      invariant count == |Pass(bs[..i], k)|
    {
      ghost var before := w.written;
      var n := WriteIfInPass(bs[i], k, w);
      count := count + n;
      PassStep(bs, i, k);
      RenderAllSplit(Pass(bs[..i], k), Pass([bs[i]], k));
      Assoc(old(w.written), RenderAll(Pass(bs[..i], k)), RenderAll(Pass([bs[i]], k)));
      i := i + 1;
    }
    assert bs[..i] == bs;
  }

  /** One step of a pass: the block is written when the pass's filter keeps it. */
  method WriteIfInPass(b: Block, k: nat, w: Writer) returns (n: int)
    modifies w
    ensures w.written == old(w.written) + RenderAll(Pass([b], k))
    ensures n == |Pass([b], k)|
  {
    assert [b][1..] == [];
    if Rank(b.cls) == k {
      WriteBlock(b, w);
      assert Pass([b], k) == [b];
      assert RenderAll([b]) == Rendering(b) + RenderAll([]);
      n := 1;
    } else {
      assert Pass([b], k) == [];
      n := 0;
    }
  }

  lemma PassStep(bs: seq<Block>, i: nat, k: nat)
    requires i < |bs|
    ensures Pass(bs[..i + 1], k) == Pass(bs[..i], k) + Pass([bs[i]], k)
  {
    assert bs[..i + 1] == bs[..i] + [bs[i]];
    PassAppend(bs[..i], [bs[i]], k);
  }

  /**
   * `Template::write_formatted`: headers, then declarations, then the rest, then the
   * trailer. It reports the number of blocks written, which is every block of the
   * template, and it never reports `DeclarationNotFound`.
   */
  method WriteFormatted(t: Template, w: Writer) returns (r: Result<int, TemplateWriteError>)
    modifies w
    ensures w.written == old(w.written) + Formatted(t)
    ensures r == Ok(|t.blocks|)
  {
    ghost var start := w.written;
    var count := WriteOrdered(t.blocks, w);
    WriteTrailer(w);
    Assoc(start, RenderAll(Ordered(t.blocks)), Trailer);
    return Ok(count);
  }

  /** The three passes of `write_formatted`, with the number of blocks they write. */
  method WriteOrdered(bs: seq<Block>, w: Writer) returns (count: int)
    modifies w
    ensures w.written == old(w.written) + RenderAll(Ordered(bs))
    ensures count == |bs|
  {
    ghost var start := w.written;
    ghost var r0, r1, r2 := RenderAll(Pass(bs, 0)), RenderAll(Pass(bs, 1)), RenderAll(Pass(bs, 2));
    var headers := WritePass(bs, 0, w);
    var declarations := WritePass(bs, 1, w);
    Assoc(start, r0, r1);
    var others := WritePass(bs, 2, w);
    Assoc(start, r0 + r1, r2);
    RenderAllConcat(Pass(bs, 0), Pass(bs, 1), Pass(bs, 2));
    PassCounts(bs);
    count := headers + declarations + others;
  }

  /** The two closing lines: the flush of the generated writer and the closing brace. */
  method WriteTrailer(w: Writer)
    modifies w
    ensures w.written == old(w.written) + Trailer
  {
    ghost var start := w.written;
    w.WriteLine(FlushLine);
    w.WriteLine(ClosingBrace);
    Assoc(start, FlushLine + "\n", ClosingBrace + "\n");
  }

  lemma RenderAllConcat(a: seq<Block>, b: seq<Block>, c: seq<Block>)
    ensures RenderAll(a + b + c) == RenderAll(a) + RenderAll(b) + RenderAll(c)
  {
    RenderAllSplit(a + b, c);
    RenderAllSplit(a, b);
  }

  /** An empty template writes only the trailer. */
  lemma EmptyTemplate(path: string)
    ensures Formatted(Template(path, [])) == "writer.flush();\n}\n\n"
  {
    assert Ordered([]) == [];
  }
}
