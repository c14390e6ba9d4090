# ers — a Dafny model of the template compiler's core

ers compiles an ERB-style template (literal text with `<% %>`, `<%! %>`, `<%% %>` and
`<%= %>` tags) into the source of a Rust function that writes the text and runs the
embedded code. This project models its three core parts:

- **the scanner** (`src/ers/scanner.rs`). It reads the template one character at a time
  and cuts it into blocks of five classes: Declaration, Header, Code, Text and Print.
  It counts newlines as it goes and stamps each block with the line where its scan
  ended.
- **the parser** (`src/ers/parser.rs`). It calls the scanner until the scanner yields
  nothing and wraps the blocks in a template.
- **the emitter** (`src/ers/template.rs` and `src/ers/blocks.rs`). It writes all
  Header blocks, then all Declaration blocks, then all other blocks, each behind a
  `//line N` marker. It then writes a fixed trailer and reports how many blocks it
  wrote.

`src/ers/lib.rs` holds a copy of those four files, so the same model covers both.

Each scanner routine is specified by a pure function. The function takes the input and
the cursor and gives a `Scanned` value: the block or content read, or none, plus where
the cursor ends up. The class `Scanning.Scanner` mirrors the Rust struct. Its methods
change the cursor and the line counter, and each method is proved to agree with its
function. The emitter's methods write into a `Blocks.Writer` whose `written` field
collects the output. Each method is proved to append exactly the text that a
specification function gives.

Modules:

- `Wrappers`: Option and Result.
- `Blocks`: blocks, `{:d}` formatting, block rendering.
- `Scanning`: scanner functions and the `Scanner` class.
- `ScannerProperties`: properties of one scan.
- `Templates`: the three passes and `write_formatted`.
- `Parsing`: `parse_path` and properties of a whole parse.
- `ScanExamples`: templates rebuilt from the blocks the repository's scanner tests expect
  (the tests read fixture files, which are not part of this model), and the quirks of the
  header scanner.
- `ParseExample`: the parser's test template, parsed block by block.

Three behaviours of the code matter for what the model states:

- **Text content is pasted unescaped.** `Block::write` writes a Text block's content raw
  between `writer.write_line("` and `");` (`src/ers/blocks.rs:72-77`), so a `"` or a
  backslash in template text lands in the generated string literal as it is.
  `Blocks.RenderingLayout` states that the content appears verbatim.
- **A header fails only on a newline two places after a `%`** (`src/ers/scanner.rs:291-294`).
  The header scanner reads a `%` together with the next two characters. A newline two places
  after such a `%` fails the header. A newline straight after it is the middle character, which
  is dropped like any other, with a second `%` written in its place (`src/ers/scanner.rs:278-299`).
  Every other newline is kept in the content. The other newline test
  (`src/ers/scanner.rs:302-304`) looks at a character already known to be `%`, so it
  never fires. See `ScanExamples.HeaderNewlineCase`, `ScanExamples.HeaderDroppedNewlineCase`
  and `ScanExamples.HeaderBrokenByNewlineCase`.
- **`%>` does not close a header; `%%>` does.** After a `%` the header scanner reads two
  more characters and closes only if the second one is `>`. So `%`, any character, `>`
  closes a header, and `%>` followed by a newline fails it. See
  `ScanExamples.HeaderSingleCloseCase` and `ScannerProperties.HeaderScanPlain`.

## Model

| member | source | states |
|---|---|---|
| Blocks.NatDigits | src/ers/blocks.rs:37 | the decimal digits of a line number: at least one, all digits, no leading zero |
| Blocks.Decimal | src/ers/blocks.rs:37 | `{:d}` of an `int` is not empty, starts with `-` exactly when the number is negative, and is digits after that |
| Blocks.NatDigitsValue | src/ers/blocks.rs:37 | reading the digits back gives the number |
| Blocks.DecimalRoundTrip | src/ers/blocks.rs:37 | `{:d}` of an `int` has no newline and reads back to the same number, negative ones included |
| Blocks.PosLine | src/ers/blocks.rs:36-38 | the line number can be read back from a position marker, whatever text follows it |
| Blocks.PosText | src/ers/blocks.rs:36-38 | the text of `Pos::write` starts with `"\n//line "`, ends with a newline and has no other newline after the marker, so the number sits alone on its line |
| Blocks.BodyText | src/ers/blocks.rs:64-86 | what the per-class `match` writes holds the content verbatim between the class's fixed opening and closing |
| Blocks.RenderingLayout | src/ers/blocks.rs:61-87 | a block's output is the `//line N` marker, a fixed per-class opening, the content verbatim and unescaped, and a fixed per-class closing; the line number can be read back from the marker |
| Blocks.HeaderRendersLikeCode | src/ers/blocks.rs:64-86 | Header and Code blocks are written the same way (`write_line` of the content) |
| Blocks.WritePos | src/ers/blocks.rs:36-38 | `Pos::write` appends `"\n//line N"` and a newline |
| Blocks.WriteBlock | src/ers/blocks.rs:61-63 | `Block::write` appends the position marker and then the block's body |
| Blocks.WriteBody | src/ers/blocks.rs:64-86 | the per-class `match` appends exactly the block's body text |
| Scanning.LineAtNext | src/ers/scanner.rs:56-64 | consuming one character raises the line counter by one exactly when it is a newline |
| Scanning.TextRunEnd | src/ers/scanner.rs:189-207 | a text run stops at the first `<` at or after the cursor, or at the end of input; it contains no `<` |
| Scanning.TextFrom | src/ers/scanner.rs:187-209 | `scanTextBlock` always yields a Text block: the seed followed by the input up to the next `<` or the end, none of it a `<`, stamped with the line reached there |
| Scanning.ContentLoop | src/ers/scanner.rs:225-255 | the content loop stays within the input and fails only by running out of it |
| Scanning.ContentLoopValue | src/ers/scanner.rs:225-255 | when the content loop succeeds it stops right after a `%>`, and the content is the accumulated text followed by exactly the input it passed over, minus the `%>` |
| Scanning.ContentFrom | src/ers/scanner.rs:214-258 | `scanContent` takes its first character unchecked and so consumes at least three characters on success; content is the prefix plus the input before the `%>`; on success the input it passed over splits into units (a character other than `%`, or `%` with a character other than `>`), so the `%>` is the first one reached that way; on failure the units run to the end of input, or to a final lone `%` |
| Scanning.ContentLoopFirstClose | src/ers/scanner.rs:225-255 | from any position, if the input up to a `%>` splits into units, the content loop stops right after that `%>` with exactly that input as content: in `<% x %%> y %>` the `%>` inside `%%>` is skipped as part of the unit `%%` |
| Scanning.ContentLoopRunsOut | src/ers/scanner.rs:225-255 | if the units run to the end of input, or to a final `%` with nothing after it, the content loop fails and consumes everything |
| Scanning.ContentLoopShape | src/ers/scanner.rs:225-255 | conversely, every success ends at a `%>` reached through units, and every failure has the units running to the end or to a final `%` |
| Scanning.ContentCloseUnique | src/ers/scanner.rs:233-245 | at most one `%>` is reached through units, so the closing the loop finds is determined by the input |
| Scanning.HeaderLoopEnd | src/ers/scanner.rs:272-318 | the header loop fails only at the end of input or on a newline two places after a `%`, and succeeds only on `%`, any character, `>` |
| Scanning.HeaderContentFrom | src/ers/scanner.rs:263-321 | `scanHeaderContent` takes its first character unchecked; it succeeds only on `%`, any character, `>` at least four characters on, and fails only at the end of input or on a newline two places after a `%`; the input it passed over splits into header units (a character other than `%`, or `%` and two characters the second of which is neither `>` nor a newline), on failure either up to the `%` of a broken `%`, x, newline, or up to the end of input, possibly leaving a final `%` with at most one character after it |
| Scanning.HeaderLoopFirstEnd | src/ers/scanner.rs:272-318 | if the input up to a `%` whose second successor is `>` or a newline splits into header units, the header loop stops three characters later, succeeding exactly when that character is `>` |
| Scanning.HeaderLoopRunsOut | src/ers/scanner.rs:272-318 | if the header units run to the end of input, or to a `%` with at most one character after it, the header loop fails and consumes everything |
| Scanning.HeaderLoopShape | src/ers/scanner.rs:272-318 | conversely, every success ends at `%`, x, `>` reached through header units, and every failure ends at a `%`, x, newline reached that way or at the end of input |
| Scanning.HeaderEndUnique | src/ers/scanner.rs:278-298 | at most one terminator `%`, x, `>` or `%`, x, newline is reached through header units |
| Scanning.Stamp | src/ers/scanner.rs:151-182 | the three block wrappers yield a block exactly when the content scan does: of their class, holding that content, stamped with one plus the newlines consumed |
| Scanning.CodeBlockFrom | src/ers/scanner.rs:123-146 | `scanCodeBlock`: a block ends on a `>` at least three characters on; `!`, `%`, `=` and any other character give Declaration, Header, Print and Code; it yields nothing only when it ran out of input or in a header |
| Scanning.BlockFrom | src/ers/scanner.rs:100-118 | `scanBlock`: the block is Text exactly when no `%` follows the `<`; only a tag opened by `<%` can yield nothing |
| Scanning.LineAtSkip | src/ers/scanner.rs:56-64 | consuming characters none of which is a newline leaves the line counter unchanged |
| Scanning.LineAtMonotone | src/ers/scanner.rs:56-64 | the line counter never goes down as input is consumed |
| Scanning.ScanFrom | src/ers/scanner.rs:80-95 | one `scan` stays within the input and, when it yields a block, consumes at least one character |
| Scanning.Scanner.constructor | src/ers/scanner.rs:43-50 | a new scanner is at the start of the input on line 1 |
| Scanning.Scanner.ReadChar | src/ers/scanner.rs:56-64 | `read_char` returns the next character and advances, keeping the line counter equal to one plus the newlines consumed; at the end it returns None and changes nothing |
| Scanning.Scanner.PeekChar | src/ers/scanner.rs:70-75 | `peek_char` returns the next character without consuming it |
| Scanning.Scanner.Scan | src/ers/scanner.rs:80-95 | `scan` yields the block and leaves the cursor where `ScanFrom` says |
| Scanning.Scanner.ScanBlock | src/ers/scanner.rs:100-118 | after `<`: end of input gives Text `"<"`, `%` opens a tag, anything else seeds a Text block with `<` and that character |
| Scanning.Scanner.ScanCodeBlock | src/ers/scanner.rs:123-146 | after `<%`: `!`, `%` and `=` select Declaration, Header and Print; any other character starts the content of a Code block |
| Scanning.Scanner.ScanDeclarationBlock | src/ers/scanner.rs:151-158 | a Declaration block holds the scanned content, stamped with the current line |
| Scanning.Scanner.ScanHeaderBlock | src/ers/scanner.rs:163-170 | a Header block holds the scanned header content, stamped with the current line |
| Scanning.Scanner.ScanPrintBlock | src/ers/scanner.rs:175-182 | a Print block holds the scanned content, stamped with the current line |
| Scanning.Scanner.ScanTextBlock | src/ers/scanner.rs:187-209 | the text loop consumes up to the next `<` (not included) and returns seed plus the run |
| Scanning.Scanner.ScanContent | src/ers/scanner.rs:214-258 | the content loop agrees with `ContentFrom`, on success and on failure |
| Scanning.Scanner.ScanHeaderContent | src/ers/scanner.rs:263-321 | the header loop agrees with `HeaderContentFrom`, on success and on failure |
| ScannerProperties.HeaderMaskMasked | src/ers/scanner.rs:278-299 | the header rewriting keeps the length, and each character is either the source character or a `%` put in place of the character after a `%` |
| ScannerProperties.HeaderLoopMasked | src/ers/scanner.rs:272-318 | a successful header loop returns the accumulated text followed by exactly the rewriting of the input it passed over: each `%`, any character, third character becomes `%%` and the third character, and every other character is copied |
| ScannerProperties.ScanSource | src/ers/scanner.rs:80-321 | every non-header block is exactly the text it was read from (markers included); a header's text is `<%%`, its first content character, the rewriting of the rest and `%%>`, so it differs from its source only by `%` put after a `%`; the line stamp is the line reached at the end of the scan |
| ScannerProperties.HeaderTagSource | src/ers/scanner.rs:263-321 | a scanned header covers at least seven characters and its text is `<%%`, its first content character, the rewriting of the rest and `%%>` |
| ScannerProperties.TagDispatch | src/ers/scanner.rs:123-146 | a block is Text exactly when the input does not open with `<%`; the third character decides the class, and a Code block's content starts with it |
| ScannerProperties.ScanFailure | src/ers/scanner.rs:80-321 | a scan yields nothing only at the end of input, or inside a tag that ran out of input, or in a header, at least seven characters on, right after a newline two places after a `%` |
| ScannerProperties.TextBlockStops | src/ers/scanner.rs:187-209 | a Text block is the input it covers and ends before a `<` or at the end; a `<` occurs in it only as its first character, or as its second when the first is also `<` |
| ScannerProperties.ContentLoopPlain | src/ers/scanner.rs:225-255 | with no `%` before the first `%>`, the content loop returns exactly the text before it |
| ScannerProperties.TagScanPlain | src/ers/scanner.rs:123-146 | a tag with one `%>` and no other `%` scans to one block of the selected class holding the text between the markers |
| ScannerProperties.HeaderLoopPlain | src/ers/scanner.rs:272-318 | with no `%` before it, a `%`, any character, `>` closes the header loop |
| ScannerProperties.HeaderScanPlain | src/ers/scanner.rs:263-321 | a header with no `%` in its content scans to one Header block; the character between the closing `%` and `>` is not checked |
| ScannerProperties.TextRunEndAt | src/ers/scanner.rs:189-207 | the text run ends at the first `<` or at the end of input |
| ScannerProperties.ContentLoopSkip | src/ers/scanner.rs:225-255 | the content loop copies a run without `%` and carries on after it |
| ScannerProperties.HeaderLoopSkip | src/ers/scanner.rs:272-318 | the header loop copies a run without `%` and carries on after it |
| ScannerProperties.ContentLoopUnclosed | src/ers/scanner.rs:225-230 | with no `%` left, the content loop fails at the end of input |
| ScannerProperties.HeaderLoopUnclosed | src/ers/scanner.rs:272-275 | with no `%` left, the header loop fails at the end of input |
| ScannerProperties.OneLineTag | src/ers/scanner.rs:123-146 | a one-line tag with a single `%>` scans to one block of the selected class, stamped with line 1, consuming all of it |
| ScannerProperties.PlainRunScan | src/ers/scanner.rs:187-209 | a run not opening with `<` scans to one Text block holding the run up to the next `<`, stamped with the line at its end |
| ScannerProperties.LtRunScan | src/ers/scanner.rs:100-118 | a `<` followed by a character other than `%` seeds a Text block holding both and the run up to the next `<` |
| ScannerProperties.UnclosedTag | src/ers/scanner.rs:214-258 | a non-header tag with no `%` after its first content character yields nothing and consumes the rest of the input |
| ScannerProperties.UnclosedHeader | src/ers/scanner.rs:263-321 | a header with no `%` after its first content character yields nothing and consumes the rest of the input |
| ScannerProperties.HeaderNewlineFails | src/ers/scanner.rs:278-294 | in a header, the first `%` followed two places on by a newline fails the scan right after that newline |
| Templates.PassAppend | src/ers/template.rs:43-67 | each filtered pass distributes over concatenation of block lists |
| Templates.PassRanks | src/ers/template.rs:43-67 | pass k keeps exactly the blocks of its rank (Header, Declaration, all others) |
| Templates.PassNone | src/ers/template.rs:43-67 | a pass over blocks of other ranks keeps nothing |
| Templates.PassOfPass | src/ers/template.rs:43-67 | filtering a pass again keeps all of it for the same rank and nothing for another |
| Templates.PassIdempotent | src/ers/template.rs:43-67 | filtering a pass twice is filtering it once |
| Templates.PassCounts | src/ers/template.rs:43-71 | the three passes together hold every block once: counts add up and the multisets add up |
| Templates.OrderedIsPermutation | src/ers/template.rs:69-71 | the emission order is a permutation of the template's blocks |
| Templates.OrderedIsSortedByRank | src/ers/template.rs:42-71 | all headers come first, then all declarations, then the rest |
| Templates.OrderedIsStable | src/ers/template.rs:43-71 | each group keeps the template's relative order |
| Templates.SortedSplits | src/ers/template.rs:42-71 | a rank-sorted block list is its three passes in sequence |
| Templates.OrderedIsUnique | src/ers/template.rs:42-71 | any arrangement that is sorted by rank and keeps each group's order is the emission order |
| Templates.ReorderExample | test/template_test.rs:22-33 | for nine blocks with the test's classes (Text, Header, Declaration, Code, Text, Print, Text, Code, Text), the emission order is the header, the declaration, then the seven others in template order |
| Templates.WritePass | src/ers/template.rs:69-71 | one `for` loop writes the rendering of each block of its pass, in order, and counts them |
| Templates.WriteIfInPass | src/ers/template.rs:43-71 | one loop step writes the block exactly when the pass's filter keeps it |
| Templates.WriteOrdered | src/ers/template.rs:40-71 | the three loops write the blocks in emission order and count every block of the template |
| Templates.WriteTrailer | src/ers/template.rs:73-74 | the trailer is `writer.flush();` and a closing brace, each on its own line |
| Templates.WriteFormatted | src/ers/template.rs:38-76 | `write_formatted` writes the ordered renderings and then the trailer, and always returns `Ok` of the number of blocks, never `DeclarationNotFound` |
| Templates.Formatted | src/ers/template.rs:38-76 | everything `write_formatted` writes ends with the trailer |
| Templates.WriteExample | src/ers/template.rs:38-76 | on a fresh writer and nine blocks with the test's classes, `write_formatted` writes the header's rendering, the declaration's, the seven others' in order and the trailer, and returns `Ok(9)` |
| Templates.WriteTest | test/template_test.rs:17-37 | the test's nine blocks are written header first, then the declaration, then the others in order, then the trailer, and the call returns `Ok(9)` |
| Templates.EmptyTemplate | src/ers/template.rs:38-76 | a template without blocks produces only the trailer |
| Parsing.ParseFrom | src/ers/parser.rs:55-60 | the loop collects at most one block per input character |
| Parsing.Parse | src/ers/parser.rs:46-62 | a whole parse has at most one block per character and its line stamps never decrease |
| Parsing.ParseStop | src/ers/parser.rs:55-60 | the loop stops at a cursor where the scan yields nothing |
| Parsing.ParseRoundTrip | src/ers/parser.rs:55-60 | the blocks' source texts, joined, have the length of the input up to where parsing stopped; they equal it when there are no headers, and in any case each character is the input's or a `%` put in place of the character after a `%` |
| Parsing.ParseLines | src/ers/parser.rs:55-60 | line stamps never decrease along the blocks and lie between the starting line and the line where parsing stopped |
| Parsing.ParseEmpty | src/ers/parser.rs:46-62 | an empty file gives a template with no blocks |
| Parsing.PlainText | src/ers/scanner.rs:187-209 | a non-empty text without `<` is one Text block holding all of it, stamped with the last line |
| Parsing.ParsePath | src/ers/parser.rs:46-62 | `parse_path` returns `Some` of a template with the given path and the blocks of the parse, in scan order |
| ScanExamples.TextCase | test/scanner_test.rs:21-32 | the text `"hello world\n"`, the content the test expects, is one Text block stamped with line 2 |
| ScanExamples.SingleLtCase | test/scanner_test.rs:34-44 | `"<\n"` is the Text block `"<\n"` |
| ScanExamples.CodeCase | test/scanner_test.rs:58-68 | `<% let x = 1 %>` is a Code block with content `" let x = 1 "` |
| ScanExamples.HeaderCase | test/scanner_test.rs:90-100 | `<%% use std::io %%>` is a Header block with content `" use std::io "` |
| ScanExamples.PrintCase | test/scanner_test.rs:127-137 | `<%= myNum %>` is a Print block with content `" myNum "` |
| ScanExamples.UnclosedCodeCase | test/scanner_test.rs:70-88 | `<% let x`, cut short by the end of input, yields nothing (the test's assertion); that it consumes everything is what the model derives |
| ScanExamples.UnclosedHeaderCase | test/scanner_test.rs:102-125 | `<%% use`, cut short by the end of input, yields nothing (the test's assertion); that it consumes everything is what the model derives |
| ScanExamples.HeaderNewlineCase | src/ers/scanner.rs:272-318 | a newline in a header that is neither straight after nor two places after a `%` is kept in the content: `<%% a\nb %%>` gives the Header block `" a\nb "` on line 2 |
| ScanExamples.HeaderDroppedNewlineCase | src/ers/scanner.rs:278-299 | a newline straight after a `%` in a header is dropped and replaced by a `%`: `<%% a%\nb %%>` gives the Header block `" a%%b "` on line 2, ending at 12 |
| ScanExamples.HeaderBrokenByNewlineCase | src/ers/scanner.rs:291-294 | a newline two places after a `%` in a header fails the scan |
| ScanExamples.HeaderSingleCloseCase | src/ers/scanner.rs:278-294 | `%>` followed by a newline does not close a header; the scan fails |
| ScanExamples.PairedPercentCase | src/ers/scanner.rs:233-245 | in `<% x %%> y %>` the input up to the first `%>` does not split into units, and the scan yields the Code block `" x %%> y "`, closing at the final `%>` |
| ScanExamples.MultilineCase | test/scanner_test.rs:150-179 | the multi-line template gives Text, a Print block spanning three newlines, and Text, with the classes and contents the test checks; the line stamps 1, 4 and 5 are not checked by the test and are what the model derives |
| ParseExample.TagAt | src/ers/scanner.rs:123-146 | a tag with a single `%>` and no other `%`, found anywhere in a text, scans to the block of its class holding the text between its markers, and ends right after the `%>` |
| ParseExample.HeaderAt | src/ers/scanner.rs:263-321 | a header with no `%` in its content, found anywhere in a text, scans to a Header block holding that content, and ends right after the `%%>` |
| ParseExample.TextAt | src/ers/scanner.rs:187-209 | a text run without `<`, followed by a `<` or the end, scans to a Text block holding exactly that run, wherever it sits |
| ParseExample.LtAt | src/ers/scanner.rs:100-118 | a `<` followed by a character other than `%` and a run without `<`, followed by a `<` or the end, scans to a Text block holding exactly that run |
| ParseExample.ParseSteps | src/ers/parser.rs:55-60 | when each piece of a text scans to one block and hands over to the next piece, the parse loop yields those blocks in order |
| ParseExample.ParserTestCase | test/parser_test.rs:18-34 | the ten-line template with a declaration, a header, a loop over code blocks and a print block parses to the fourteen blocks the test lists, with lines 1 to 10 |
| ParseExample.ParserTestPath | test/parser_test.rs:6-37 | `parse_path` on that template returns `Some` template with the given path and the test's fourteen blocks, so the block list is not empty |

## Left out

- The command-line front end (`bin/ers.rs`): argument handling, usage text, writing the output file.
- Reading the template file in `parse_path` (`File::open`, `read_to_str().unwrap()`). The contents are a parameter of `Parsing.ParsePath`, and a failed read is not modelled.
- `Parser::new` and the `version` field. The parser holds no other state and never reads `version`.
- The scanner's `path` and `pos` fields are kept, but nothing in the source reads them after construction.
- Write errors. `Block::write`, `Pos::write` and `write_formatted` discard the results of `write_str` and `write_line`, and the model's `Writer` never fails.
- Fixed-width overflow of the Rust `int` line counter and block count. Both are unbounded integers here.
- The unreachable newline test in `scanHeaderContent` (`src/ers/scanner.rs:302-308`, `src/ers/lib.rs:386-392`) is not written as code. The character it tests was already matched as `%` three lines earlier.
- `Template::new` is the `Templates.Template` datatype constructor. `TemplateWriteError` is a datatype that nothing returns, as in the source.
- Text escaping is not modelled, because the code does none.
- The fixture files under `test/fixtures/` are not part of this model: neither `parsefile.ers` nor the scanner tests' fixtures (`scan_text_block.ers`, `code_block.ers`, `multiline.ers` and the others read at test/scanner_test.rs:22-179). Each `ScanExamples` input is a template rebuilt from the blocks its test expects, so it shows the scanner on that text, not on the fixture byte for byte. `ParseExample.Pieces` likewise rebuilds a template from the blocks the parser test expects: each block's text with its markers, in order. Its header closes with `%%>`, which is how the header scanner reads it.
