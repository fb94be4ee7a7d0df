/**
 * Block segmentation of the preview renderer (`renderMarkdown` in
 * src/ui/markdown-renderer.js): how source lines are classified, which lines
 * each emitted block consumes, and the 1-based `(startLine, endLine)` range
 * attached to it by `withSourceRange`. The HTML inside a block is not
 * modelled; `escapeHtml` and the attribute insertion are.
 *
 * The regular expressions of the renderer are written out as predicates over
 * the line, with the backtracking behaviour of the JavaScript engine resolved
 * by hand (`\s` and `trim` share the set `Strs.IsSpace`).
 */
module MarkdownBlocks {
  import opened Common
  import opened Strs

  // ---------------------------------------------------------------------------
  // Input lines
  // ---------------------------------------------------------------------------

  /** `replace(/\r\n/g, "\n")`: each CR LF pair, scanned left to right, becomes LF. */
  function NormalizeNewlines(s: string): (r: string)
    ensures |r| <= |s|
  {
    if |s| >= 2 && s[0] == '\r' && s[1] == '\n' then "\n" + NormalizeNewlines(s[2..])
    else if s == [] then []
    else [s[0]] + NormalizeNewlines(s[1..])
  }

  /** `s` with every carriage return removed. */
  function DropCr(s: string): string
  {
    if s == [] then [] else (if s[0] == '\r' then [] else [s[0]]) + DropCr(s[1..])
  }

  lemma DropCrAppend(a: string, b: string)
    ensures DropCr(a + b) == DropCr(a) + DropCr(b)
  {
    if a != [] {
      assert (a + b)[0] == a[0] && (a + b)[1..] == a[1..] + b;
      DropCrAppend(a[1..], b);
    } else {
      assert a + b == b;
    }
  }

  /**
   * The normalization only deletes carriage returns (one in front of each
   * LF that had one), and leaves text without any CR unchanged.
   */
  lemma {:induction false} NormalizeNewlinesFacts(s: string)
    ensures DropCr(NormalizeNewlines(s)) == DropCr(s)
    ensures (forall i :: 0 <= i < |s| ==> s[i] != '\r') ==> NormalizeNewlines(s) == s
  {
    if |s| >= 2 && s[0] == '\r' && s[1] == '\n' {
      NormalizeNewlinesFacts(s[2..]);
      DropCrAppend("\n", NormalizeNewlines(s[2..]));
      assert s == [s[0]] + ([s[1]] + s[2..]);
      DropCrAppend([s[0]], [s[1]] + s[2..]);
      DropCrAppend([s[1]], s[2..]);
    } else if s != [] {
      NormalizeNewlinesFacts(s[1..]);
      DropCrAppend([s[0]], NormalizeNewlines(s[1..]));
      assert s == [s[0]] + s[1..];
      DropCrAppend([s[0]], s[1..]);
    }
  }

  /** The lines `renderMarkdown` walks: CR LF normalized, then `split("\n")`. */
  function Lines(markdown: string): seq<string>
  {
    Split(NormalizeNewlines(markdown), '\n')
  }

  // ---------------------------------------------------------------------------
  // Line classification
  // ---------------------------------------------------------------------------

  /** `!line.trim()`. */
  predicate IsBlank(line: string) { Trim(line) == [] }

  /** The characters `.` does not match in a JavaScript regular expression. */
  predicate IsLineTerminator(c: char)
  {
    c == '\n' || c == '\r' || c == '\U{2028}' || c == '\U{2029}'
  }

  predicate OnlySpace(s: string)
  {
    forall i :: 0 <= i < |s| ==> IsSpace(s[i])
  }

  predicate NoTerminator(s: string)
  {
    forall i :: 0 <= i < |s| ==> !IsLineTerminator(s[i])
  }

  predicate IsDigit(c: char) { '0' <= c <= '9' }

  predicate IsAlnum(c: char) { 'a' <= c <= 'z' || 'A' <= c <= 'Z' || IsDigit(c) }

  /** `[a-zA-Z0-9_-]`, the characters of a fence's language tag. */
  predicate IsLangChar(c: char) { IsAlnum(c) || c == '_' || c == '-' }

  function LeadingHashes(s: string): (n: nat)
    ensures n <= |s|
  {
    if s != [] && s[0] == '#' then 1 + LeadingHashes(s[1..]) else 0
  }

  function LeadingDigits(s: string): (n: nat)
    ensures n <= |s|
  {
    if s != [] && IsDigit(s[0]) then 1 + LeadingDigits(s[1..]) else 0
  }

  function LeadingLangChars(s: string): (n: nat)
    ensures n <= |s|
  {
    if s != [] && IsLangChar(s[0]) then 1 + LeadingLangChars(s[1..]) else 0
  }

  function LeadingAlnum(s: string): (n: nat)
    ensures n <= |s|
  {
    if s != [] && IsAlnum(s[0]) then 1 + LeadingAlnum(s[1..]) else 0
  }

  /**
   * `/^```([a-zA-Z0-9_-]*)\s*$/`: three backticks, a language tag and
   * nothing but white-space after it.
   */
  predicate IsFenceOpen(line: string)
  {
    StartsWith(line, "```") && var rest := line[3..]; OnlySpace(rest[LeadingLangChars(rest)..])
  }

  /** `/^(#{1,6})\s+/`: one to six '#' and a white-space character. */
  predicate HeadingPrefix(line: string)
  {
    var n := LeadingHashes(line);
    1 <= n <= 6 && n < |line| && IsSpace(line[n])
  }

  /**
   * `/^(#{1,6})\s+(.+)$/`. After the hashes, `\s+` takes the white-space run
   * and `(.+)` needs at least one character with no line terminator in what
   * is left; when the rest of the line is all white-space, `\s+` gives back
   * its last character to `(.+)`.
   */
  predicate IsHeading(line: string)
  {
    HeadingPrefix(line) &&
    var s := line[LeadingHashes(line)..];
    var w := |s| - |TrimStart(s)|;
    if w < |s| then NoTerminator(s[w..]) else |s| >= 2 && !IsLineTerminator(s[|s| - 1])
  }

  /** `/^\s*([-*_])\1{2,}\s*$/`: at least three copies of one of `-`, `*`, `_`, padded by white-space. */
  predicate IsRule(line: string)
  {
    var t := Trim(line);
    |t| >= 3 && (t[0] == '-' || t[0] == '*' || t[0] == '_') && forall i :: 0 <= i < |t| ==> t[i] == t[0]
  }

  /** `line.startsWith("> ")`. */
  predicate IsQuote(line: string) { StartsWith(line, "> ") }

  /** `/^\s*([-*+]\s+|\d+\.\s+)/`: a bullet or a number and a dot, then white-space. */
  predicate IsListItem(line: string)
  {
    var s := TrimStart(line);
    (|s| >= 2 && (s[0] == '-' || s[0] == '*' || s[0] == '+') && IsSpace(s[1]))
    || (var d := LeadingDigits(s); 1 <= d && d + 1 < |s| && s[d] == '.' && IsSpace(s[d + 1]))
  }

  /** One leading and one trailing pipe removed, as a table row is read. */
  function StripPipes(t: string): (r: string)
    ensures |r| <= |t|
  {
    var a := if t != [] && t[0] == '|' then t[1..] else t;
    if a != [] && a[|a| - 1] == '|' then a[..|a| - 1] else a
  }

  /** `:?-{3,}:?`: at least three dashes, optionally between colons. */
  predicate IsDashCell(q: string)
  {
    var a := if q != [] && q[0] == ':' then q[1..] else q;
    var b := if a != [] && a[|a| - 1] == ':' then a[..|a| - 1] else a;
    |b| >= 3 && forall i :: 0 <= i < |b| ==> b[i] == '-'
  }

  /**
   * `/^\s*\|?\s*:?-{3,}:?\s*(\|\s*:?-{3,}:?\s*)+\|?\s*$/`: a delimiter row
   * of at least two dash cells, with optional outer pipes.
   */
  predicate IsDelimiterRow(line: string)
  {
    var cells := Split(StripPipes(Trim(line)), '|');
    |cells| >= 2 && forall k :: 0 <= k < |cells| ==> IsDashCell(Trim(cells[k]))
  }

  /** `splitTableRow`: the trimmed cells of a row, outer pipes removed. */
  function SplitTableRow(row: string): (cells: seq<string>)
    ensures |cells| >= 1
  {
    var parts := Split(StripPipes(Trim(row)), '|');
    seq(|parts|, k requires 0 <= k < |parts| => Trim(parts[k]))
  }

  /**
   * A delimiter row is exactly a row that `splitTableRow` cuts into at
   * least two cells, each a dash cell.
   */
  lemma DelimiterRowCells(line: string)
    ensures IsDelimiterRow(line) <==>
              (|SplitTableRow(line)| >= 2
               && forall k :: 0 <= k < |SplitTableRow(line)| ==> IsDashCell(SplitTableRow(line)[k]))
  {
    var parts := Split(StripPipes(Trim(line)), '|');
    var cells := SplitTableRow(line);
    assert |cells| == |parts|;
    assert forall k :: 0 <= k < |parts| ==> cells[k] == Trim(parts[k]);
  }

  /** `isTableStart`: a line with a pipe, followed by a delimiter row. */
  predicate IsTableStart(lines: seq<string>, i: nat)
    requires i < |lines|
  {
    i + 1 < |lines| && '|' in lines[i] && IsDelimiterRow(lines[i + 1])
  }

  /** `startsSpecialBlock`: the line begins a block other than a paragraph. */
  predicate StartsSpecialBlock(lines: seq<string>, i: nat)
    requires i < |lines|
  {
    var line := lines[i];
    StartsWith(line, "```") || HeadingPrefix(line) || IsRule(line) || IsQuote(line)
    || IsListItem(line) || IsTableStart(lines, i)
  }

  // ---------------------------------------------------------------------------
  // The inner loops
  // ---------------------------------------------------------------------------

  /** The line runs the inner loops of `renderMarkdown` consume. */
  datatype LineRun = CodeLines | QuoteLines | TableRows | ListItems | ParagraphLines

  /** The condition of each inner loop, on line `k`. */
  predicate Continues(run: LineRun, lines: seq<string>, k: nat)
    requires k < |lines|
  {
    match run
    case CodeLines => !StartsWith(lines[k], "```")
    case QuoteLines => IsQuote(lines[k])
    case TableRows => '|' in lines[k]
    case ListItems => IsListItem(lines[k])
    case ParagraphLines => !IsBlank(lines[k]) && !StartsSpecialBlock(lines, k)
  }

  /** Where an inner loop started at `k` stops. */
  function ScanFrom(lines: seq<string>, k: nat, run: LineRun): (e: nat)
    requires k <= |lines|
    ensures k <= e <= |lines|
    decreases |lines| - k
  {
    if k < |lines| && Continues(run, lines, k) then ScanFrom(lines, k + 1, run) else k
  }

  /** An inner loop consumes exactly the maximal run of lines satisfying its condition. */
  lemma {:induction false} ScanFacts(lines: seq<string>, k: nat, run: LineRun)
    requires k <= |lines|
    ensures var e := ScanFrom(lines, k, run);
            (forall j :: k <= j < e ==> Continues(run, lines, j))
            && (e < |lines| ==> !Continues(run, lines, e))
    decreases |lines| - k
  {
    if k < |lines| && Continues(run, lines, k) {
      ScanFacts(lines, k + 1, run);
      var e := ScanFrom(lines, k + 1, run);
      assert ScanFrom(lines, k, run) == e;
      forall j | k <= j < e ensures Continues(run, lines, j) {
        if j > k {
          assert k + 1 <= j < e;
        }
      }
    }
  }

  // ---------------------------------------------------------------------------
  // One turn of the main loop
  // ---------------------------------------------------------------------------

  datatype BlockKind = CodeBlock | HeadingBlock | RuleBlock | QuoteBlock | TableBlock | ListBlock | ParagraphBlock

  /** An emitted block and the 1-based source range `withSourceRange` attaches to it. */
  datatype Block = Block(kind: BlockKind, startLine: nat, endLine: nat)

  /** The block a turn pushes (none for a blank line) and the index the next turn starts at. */
  datatype Step = Step(block: Option<Block>, next: nat)

  /**
   * One turn of the `while (i < lines.length)` loop of `renderMarkdown`.
   * With `corrected` false this is the code as written; with `corrected`
   * true the paragraph loop takes its first line unconditionally, so a line
   * no other branch takes becomes a one-line paragraph instead of hanging
   * the renderer.
   */
  function Turn(lines: seq<string>, i: nat, corrected: bool): (s: Step)
    requires i < |lines|
    ensures i <= s.next <= |lines| + 1
    ensures corrected ==> i < s.next
  {
    var line := lines[i];
    if IsBlank(line) then Step(None, i + 1)
    else if IsFenceOpen(line) then
      var e := ScanFrom(lines, i + 1, CodeLines) + 1;
      Step(Some(Block(CodeBlock, i + 1, e)), e)
    else if IsHeading(line) then Step(Some(Block(HeadingBlock, i + 1, i + 1)), i + 1)
    else if IsRule(line) then Step(Some(Block(RuleBlock, i + 1, i + 1)), i + 1)
    else if IsQuote(line) then
      var e := ScanFrom(lines, i, QuoteLines);
      Step(Some(Block(QuoteBlock, i + 1, e)), e)
    else if IsTableStart(lines, i) then
      var e := ScanFrom(lines, i + 2, TableRows);
      Step(Some(Block(TableBlock, i + 1, e)), e)
    else if IsListItem(line) then
      var e := ScanFrom(lines, i, ListItems);
      Step(Some(Block(ListBlock, i + 1, e)), e)
    else
      var e := ScanFrom(lines, if corrected then i + 1 else i, ParagraphLines);
      Step(Some(Block(ParagraphBlock, i + 1, e)), e)
  }

  /** A line that starts with three backticks but does not open a fence (`` ```c++ ``, ```` ```` ````). */
  predicate IsBadFence(line: string) { StartsWith(line, "```") && !IsFenceOpen(line) }

  /** A line with the heading prefix that is not a heading (`## `). */
  predicate IsBadHeading(line: string) { HeadingPrefix(line) && !IsHeading(line) }

  /**
   * As written, the main loop fails to advance exactly on a bad fence or a
   * bad heading line that does not start a table: `startsSpecialBlock` holds,
   * no branch takes the line, and the paragraph loop consumes nothing, so
   * `renderMarkdown` pushes empty paragraphs forever.
   */
  lemma TurnStalls(lines: seq<string>, i: nat)
    requires i < |lines|
    ensures Turn(lines, i, false).next == i <==>
              (!IsTableStart(lines, i) && (IsBadFence(lines[i]) || IsBadHeading(lines[i])))
  {
    var line := lines[i];
    if !IsBlank(line) && !IsFenceOpen(line) && !IsHeading(line) && !IsRule(line) && !IsQuote(line)
       && !IsTableStart(lines, i) && !IsListItem(line) {
      assert ScanFrom(lines, i, ParagraphLines) == i <==> StartsSpecialBlock(lines, i);
    }
    if IsBadFence(line) || IsBadHeading(line) {
      assert line[0] == '`' || line[0] == '#';
      BadLineIsNotOther(line);
    }
  }

  /** A line starting with a backtick or a hash is not blank, a rule, a quote or a list item. */
  lemma BadLineIsNotOther(line: string)
    requires line != [] && (line[0] == '`' || line[0] == '#')
    ensures !IsBlank(line) && !IsRule(line) && !IsQuote(line) && !IsListItem(line)
  {
    assert !IsSpace(line[0]);
    assert TrimStart(line) == line;
    TrimEndFacts(line);
    var r := TrimEnd(line);
    assert Trim(line) == r;
    assert r != [] && r[0] == line[0];
    assert LeadingDigits(line) == 0;
  }

  /** Three concrete lines on which the renderer, as written, never returns. */
  lemma TurnStallExamples()
    ensures Turn(["## "], 0, false).next == 0
    ensures Turn(["```c++"], 0, false).next == 0
    ensures Turn(["````"], 0, false).next == 0
  {
    EmptyHeadingStalls();
    LanguageFenceStalls();
    FourTicksStall();
  }

  lemma EmptyHeadingStalls()
    ensures Turn(["## "], 0, false).next == 0
  {
    var heading := "## ";
    assert LeadingHashes(heading) == 2;
    assert heading[2..] == " ";
    assert TrimStart(" ") == [];
    assert IsBadHeading(heading);
    TurnStalls(["## "], 0);
  }

  lemma LanguageFenceStalls()
    ensures Turn(["```c++"], 0, false).next == 0
  {
    var cpp := "```c++";
    assert cpp[3..] == "c++";
    assert LeadingLangChars("c++") == 1;
    assert "c++"[1..] == "++";
    assert IsBadFence(cpp);
    TurnStalls(["```c++"], 0);
  }

  lemma FourTicksStall()
    ensures Turn(["````"], 0, false).next == 0
  {
    var ticks := "````";
    assert ticks[3..] == "`";
    assert LeadingLangChars("`") == 0;
    assert IsBadFence(ticks);
    TurnStalls(["````"], 0);
  }

  /** Wherever the renderer as written makes progress, the corrected turn is the same turn. */
  lemma CorrectedTurnAgrees(lines: seq<string>, i: nat)
    requires i < |lines|
    requires Turn(lines, i, false).next != i
    ensures Turn(lines, i, true) == Turn(lines, i, false)
  {
    var line := lines[i];
    if !(IsBlank(line) || IsFenceOpen(line) || IsHeading(line) || IsRule(line) || IsQuote(line)
       || IsTableStart(lines, i) || IsListItem(line)) {
      assert Continues(ParagraphLines, lines, i);
    }
  }

  // ---------------------------------------------------------------------------
  // The whole loop
  // ---------------------------------------------------------------------------

  /** The blocks `renderMarkdown` emits from line `i` on, with the corrected turn. */
  function Segment(lines: seq<string>, i: nat): seq<Block>
    requires i <= |lines| + 1
    decreases |lines| + 1 - i
  {
    if i >= |lines| then []
    else
      var s := Turn(lines, i, true);
      (if s.block.Some? then [s.block.value] else []) + Segment(lines, s.next)
  }

  /** What a single block's range says about the lines it covers. */
  predicate WellPlaced(lines: seq<string>, b: Block)
  {
    1 <= b.startLine <= |lines| && b.startLine <= b.endLine
    && !IsBlank(lines[b.startLine - 1])
    && ((b.kind == HeadingBlock || b.kind == RuleBlock) ==> b.endLine == b.startLine)
    && (b.kind == CodeBlock ==>
          b.startLine < b.endLine
          && (b.endLine <= |lines| ==> StartsWith(lines[b.endLine - 1], "```")))
    && (b.kind != CodeBlock ==> b.endLine <= |lines|)
  }

  /** Line `l` (1-based) lies inside some block's range. */
  predicate Covered(blocks: seq<Block>, l: nat)
  {
    exists k :: 0 <= k < |blocks| && blocks[k].startLine <= l <= blocks[k].endLine
  }

  /** Block ranges, in emission order, are disjoint and strictly increasing. */
  predicate Ordered(blocks: seq<Block>)
  {
    forall k, m :: 0 <= k < m < |blocks| ==> blocks[k].endLine < blocks[m].startLine
  }

  /** The block a corrected turn pushes is well placed and ends where the next turn starts. */
  lemma StepFacts(lines: seq<string>, i: nat)
    requires i < |lines|
    ensures var s := Turn(lines, i, true);
            (s.block.None? <==> IsBlank(lines[i]))
            && (s.block.Some? ==>
                  s.block.value.startLine == i + 1 && s.block.value.endLine == s.next
                  && WellPlaced(lines, s.block.value))
            && (s.next == |lines| + 1 ==> s.block.Some? && s.block.value.kind == CodeBlock)
  {
    var line := lines[i];
    if !IsBlank(line) && IsFenceOpen(line) {
      var c := ScanFrom(lines, i + 1, CodeLines);
      ScanFacts(lines, i + 1, CodeLines);
    }
  }

  /** Unfolding `Segment` once. */
  lemma SegmentStep(lines: seq<string>, i: nat)
    requires i < |lines|
    ensures var s := Turn(lines, i, true);
            Segment(lines, i) == (if s.block.Some? then [s.block.value] else []) + Segment(lines, s.next)
  {
  }

  /**
   * Every block `renderMarkdown` emits from line `i` on is well placed and
   * starts after line `i`; only the last block, an unterminated fence, can
   * reach past the last line.
   */
  lemma {:induction false} SegmentPlaced(lines: seq<string>, i: nat)
    requires i <= |lines| + 1
    ensures var bs := Segment(lines, i);
            (forall k :: 0 <= k < |bs| ==> WellPlaced(lines, bs[k]) && i < bs[k].startLine)
            && (forall k :: 0 <= k < |bs| - 1 ==> bs[k].endLine <= |lines|)
    decreases |lines| + 1 - i
  {
    if i < |lines| {
      var s := Turn(lines, i, true);
      StepFacts(lines, i);
      SegmentPlaced(lines, s.next);
      SegmentStep(lines, i);
      if s.next == |lines| + 1 {
        assert Segment(lines, s.next) == [];
      }
    }
  }

  /** Block ranges are disjoint and strictly increasing. */
  lemma {:induction false} SegmentOrdered(lines: seq<string>, i: nat)
    requires i <= |lines| + 1
    ensures Ordered(Segment(lines, i))
    decreases |lines| + 1 - i
  {
    if i < |lines| {
      var s := Turn(lines, i, true);
      StepFacts(lines, i);
      SegmentOrdered(lines, s.next);
      SegmentPlaced(lines, s.next);
      SegmentStep(lines, i);
    }
  }

  /** Blank lines start no block, and every non-blank line lies inside some block's range. */
  lemma {:induction false} SegmentCovers(lines: seq<string>, i: nat)
    requires i <= |lines| + 1
    ensures var bs := Segment(lines, i);
            forall j :: i <= j < |lines| && !IsBlank(lines[j]) ==> Covered(bs, j + 1)
    decreases |lines| + 1 - i
  {
    if i < |lines| {
      var s := Turn(lines, i, true);
      StepFacts(lines, i);
      SegmentCovers(lines, s.next);
      SegmentStep(lines, i);
      var rest := Segment(lines, s.next);
      var head := if s.block.Some? then [s.block.value] else [];
      var bs := head + rest;
      forall j | i <= j < |lines| && !IsBlank(lines[j])
        ensures Covered(bs, j + 1)
      {
        if j < s.next {
          assert j == i || s.block.Some?;
          assert bs[0].startLine <= j + 1 <= bs[0].endLine;
        } else {
          var k :| 0 <= k < |rest| && rest[k].startLine <= j + 1 <= rest[k].endLine;
          assert bs[k + |head|] == rest[k];
        }
      }
    }
  }

  /** The block list of `renderMarkdown` (with the corrected paragraph turn), one turn per iteration. */
  method RenderBlocks(markdown: string) returns (blocks: seq<Block>)
    ensures blocks == Segment(Lines(markdown), 0)
  {
    var lines := Lines(markdown);
    blocks := [];
    var i := 0;
    while i < |lines|
      invariant i <= |lines| + 1
      invariant blocks + Segment(lines, i) == Segment(lines, 0)
      decreases |lines| + 1 - i
    {
      SegmentStep(lines, i);
      var b, next := NextBlock(lines, i);
      var head := if b.Some? then [b.value] else [];
      assert Segment(lines, i) == head + Segment(lines, next);
      blocks := blocks + head;
      i := next;
    }
  }

  /** The body of the main loop, its inner loops included. */
  method NextBlock(lines: seq<string>, i: nat) returns (b: Option<Block>, next: nat)
    requires i < |lines|
    ensures Step(b, next) == Turn(lines, i, true)
  {
    var line := lines[i];
    var start := i + 1;
    if IsBlank(line) {
      return None, i + 1;
    }
    if IsFenceOpen(line) {
      next := ScanLines(lines, i + 1, CodeLines);
      next := next + 1;
      return Some(Block(CodeBlock, start, next)), next;
    }
    if IsHeading(line) {
      return Some(Block(HeadingBlock, start, start)), i + 1;
    }
    if IsRule(line) {
      return Some(Block(RuleBlock, start, start)), i + 1;
    }
    if IsQuote(line) {
      next := ScanLines(lines, i, QuoteLines);
      return Some(Block(QuoteBlock, start, next)), next;
    }
    if IsTableStart(lines, i) {
      next := ScanLines(lines, i + 2, TableRows);
      return Some(Block(TableBlock, start, next)), next;
    }
    if IsListItem(line) {
      next := ScanLines(lines, i, ListItems);
      return Some(Block(ListBlock, start, next)), next;
    }
    next := ScanLines(lines, i + 1, ParagraphLines);
    return Some(Block(ParagraphBlock, start, next)), next;
  }

  /** An inner `while` loop: advance past the lines that satisfy the run's condition. */
  method ScanLines(lines: seq<string>, k: nat, run: LineRun) returns (e: nat)
    requires k <= |lines|
    ensures e == ScanFrom(lines, k, run)
  {
    e := k;
    while e < |lines| && Continues(run, lines, e)
      invariant k <= e <= |lines|
      invariant ScanFrom(lines, e, run) == ScanFrom(lines, k, run)
      decreases |lines| - e
    {
      e := e + 1;
    }
  }

  // ---------------------------------------------------------------------------
  // HTML helpers
  // ---------------------------------------------------------------------------

  /** `replaceAll(c, rep)` for a one-character pattern. */
  function ReplaceAll(s: string, c: char, rep: string): string
  {
    if s == [] then [] else (if s[0] == c then rep else [s[0]]) + ReplaceAll(s[1..], c, rep)
  }

  lemma {:induction false} ReplaceAllAppend(a: string, b: string, c: char, rep: string)
    ensures ReplaceAll(a + b, c, rep) == ReplaceAll(a, c, rep) + ReplaceAll(b, c, rep)
  {
    if a == [] {
      assert a + b == b;
    } else {
      assert (a + b)[0] == a[0] && (a + b)[1..] == a[1..] + b;
      ReplaceAllAppend(a[1..], b, c, rep);
    }
  }

  /** `escapeHtml`: the five replacements in the source's order, ampersand first. */
  function EscapeHtml(s: string): string
  {
    ReplaceAll(ReplaceAll(ReplaceAll(ReplaceAll(ReplaceAll(s, '&', "&amp;"), '<', "&lt;"), '>', "&gt;"),
                          '"', "&quot;"), '\'', "&#39;")
  }

  /** The entity each special character becomes. */
  function EscapeChar(c: char): string
  {
    if c == '&' then "&amp;" else if c == '<' then "&lt;" else if c == '>' then "&gt;"
    else if c == '"' then "&quot;" else if c == '\'' then "&#39;" else [c]
  }

  function EscapeEach(s: string): string
  {
    if s == [] then [] else EscapeChar(s[0]) + EscapeEach(s[1..])
  }

  /** A replacement whose character does not occur changes nothing. */
  lemma {:induction false} ReplaceAllAbsent(s: string, c: char, rep: string)
    requires c !in s
    ensures ReplaceAll(s, c, rep) == s
  {
    if s != [] {
      assert s[0] != c && c !in s[1..];
      ReplaceAllAbsent(s[1..], c, rep);
    }
  }

  lemma ReplaceAllOne(c: char, target: char, rep: string)
    ensures ReplaceAll([c], target, rep) == if c == target then rep else [c]
  {
    assert [c][1..] == [];
  }

  /** The five replacements, one after another, on a single character. */
  lemma EscapeHtmlChar(c: char)
    ensures EscapeHtml([c]) == EscapeChar(c)
  {
    if c == '&' {
      ReplaceAllOne(c, '&', "&amp;");
      PassesThrough("&amp;");
    } else if c == '<' {
      EscapeLessThan();
    } else if c == '>' {
      EscapeGreaterThan();
    } else {
      EscapeOther(c);
    }
  }

  lemma EscapeLessThan()
    ensures EscapeHtml("<") == "&lt;"
  {
    ReplaceAllOne('<', '&', "&amp;");
    ReplaceAllOne('<', '<', "&lt;");
    PassesThrough("&lt;");
  }

  lemma EscapeGreaterThan()
    ensures EscapeHtml(">") == "&gt;"
  {
    ReplaceAllOne('>', '&', "&amp;");
    ReplaceAllOne('>', '<', "&lt;");
    ReplaceAllOne('>', '>', "&gt;");
    PassesThrough("&gt;");
  }

  lemma EscapeOther(c: char)
    requires c != '&' && c != '<' && c != '>'
    ensures EscapeHtml([c]) == EscapeChar(c)
  {
    ReplaceAllOne(c, '&', "&amp;");
    ReplaceAllOne(c, '<', "&lt;");
    ReplaceAllOne(c, '>', "&gt;");
    ReplaceAllOne(c, '"', "&quot;");
    ReplaceAllOne(c, '\'', "&#39;");
  }

  /** Text without any of the later special characters passes unchanged through their replacements. */
  lemma PassesThrough(e: string)
    requires '<' !in e && '>' !in e && '"' !in e && '\'' !in e
    ensures ReplaceAll(e, '<', "&lt;") == e && ReplaceAll(e, '>', "&gt;") == e
    ensures ReplaceAll(e, '"', "&quot;") == e && ReplaceAll(e, '\'', "&#39;") == e
  {
    ReplaceAllAbsent(e, '<', "&lt;");
    ReplaceAllAbsent(e, '>', "&gt;");
    ReplaceAllAbsent(e, '"', "&quot;");
    ReplaceAllAbsent(e, '\'', "&#39;");
  }

  /**
   * Because the ampersand is replaced first, no entity produced by a later
   * replacement is escaped again: the chain escapes every character once.
   */
  lemma {:induction false} EscapeHtmlEachOnce(s: string)
    ensures EscapeHtml(s) == EscapeEach(s)
  {
    if s != [] {
      EscapeHtmlEachOnce(s[1..]);
      EscapeHtmlChar(s[0]);
      var h := [s[0]];
      var t := s[1..];
      assert s == h + t;
      ReplaceAllAppend(h, t, '&', "&amp;");
      var h1 := ReplaceAll(h, '&', "&amp;");
      var t1 := ReplaceAll(t, '&', "&amp;");
      ReplaceAllAppend(h1, t1, '<', "&lt;");
      var h2 := ReplaceAll(h1, '<', "&lt;");
      var t2 := ReplaceAll(t1, '<', "&lt;");
      ReplaceAllAppend(h2, t2, '>', "&gt;");
      var h3 := ReplaceAll(h2, '>', "&gt;");
      var t3 := ReplaceAll(t2, '>', "&gt;");
      ReplaceAllAppend(h3, t3, '"', "&quot;");
      var h4 := ReplaceAll(h3, '"', "&quot;");
      var t4 := ReplaceAll(t3, '"', "&quot;");
      ReplaceAllAppend(h4, t4, '\'', "&#39;");
    }
  }

  /** Decoding the five entities `escapeHtml` produces. */
  function Unescape(s: string): string
  {
    if s == [] then []
    else if StartsWith(s, "&amp;") then "&" + Unescape(s[5..])
    else if StartsWith(s, "&lt;") then "<" + Unescape(s[4..])
    else if StartsWith(s, "&gt;") then ">" + Unescape(s[4..])
    else if StartsWith(s, "&quot;") then "\"" + Unescape(s[6..])
    else if StartsWith(s, "&#39;") then "'" + Unescape(s[5..])
    else [s[0]] + Unescape(s[1..])
  }

  /** Escaped text decodes back to the original text, and has no markup character left in it. */
  lemma EscapeHtmlRoundTrip(s: string)
    ensures Unescape(EscapeHtml(s)) == s
    ensures forall i :: 0 <= i < |EscapeHtml(s)| ==> EscapeHtml(s)[i] !in "<>\"'"
  {
    EscapeHtmlEachOnce(s);
    EscapeEachRoundTrip(s);
    EscapeEachNoMarkup(s);
  }

  /** Decoding the entity of one character, followed by more text. */
  lemma UnescapeChar(c: char, t: string)
    ensures Unescape(EscapeChar(c) + t) == [c] + Unescape(t)
  {
    if c == '&' {
      PrefixThenRest("&amp;", t);
    } else if c == '<' {
      UnescapeLt(t);
    } else if c == '>' {
      UnescapeGt(t);
    } else if c == '"' {
      UnescapeQuot(t);
    } else if c == '\'' {
      UnescapeApos(t);
    } else {
      UnescapePlain(c, t);
    }
  }

  lemma UnescapeLt(t: string)
    ensures Unescape("&lt;" + t) == "<" + Unescape(t)
  {
    var u := "&lt;" + t;
    PrefixThenRest("&lt;", t);
    DiffersAt(u, "&amp;", 1);
  }

  lemma UnescapeGt(t: string)
    ensures Unescape("&gt;" + t) == ">" + Unescape(t)
  {
    var u := "&gt;" + t;
    PrefixThenRest("&gt;", t);
    DiffersAt(u, "&amp;", 1);
    DiffersAt(u, "&lt;", 1);
  }

  lemma UnescapeQuot(t: string)
    ensures Unescape("&quot;" + t) == "\"" + Unescape(t)
  {
    var u := "&quot;" + t;
    PrefixThenRest("&quot;", t);
    DiffersAt(u, "&amp;", 1);
    DiffersAt(u, "&lt;", 1);
    DiffersAt(u, "&gt;", 1);
  }

  lemma UnescapeApos(t: string)
    ensures Unescape("&#39;" + t) == "'" + Unescape(t)
  {
    var u := "&#39;" + t;
    PrefixThenRest("&#39;", t);
    DiffersAt(u, "&amp;", 1);
    DiffersAt(u, "&lt;", 1);
    DiffersAt(u, "&gt;", 1);
    DiffersAt(u, "&quot;", 1);
  }

  lemma UnescapePlain(c: char, t: string)
    requires c != '&'
    ensures Unescape([c] + t) == [c] + Unescape(t)
  {
    var u := [c] + t;
    assert u[0] == c && u[1..] == t;
    DiffersAt(u, "&amp;", 0);
    DiffersAt(u, "&lt;", 0);
    DiffersAt(u, "&gt;", 0);
    DiffersAt(u, "&quot;", 0);
    DiffersAt(u, "&#39;", 0);
  }

  /** Text that differs from a would-be prefix at some position does not start with it. */
  lemma DiffersAt(u: string, e: string, k: nat)
    requires k < |e| && k < |u| && u[k] != e[k]
    ensures !StartsWith(u, e)
  {
    if |e| <= |u| {
      assert u[..|e|][k] == u[k];
    }
  }

  lemma PrefixThenRest(e: string, t: string)
    ensures StartsWith(e + t, e) && (e + t)[|e|..] == t
  {
    assert (e + t)[..|e|] == e;
  }

  lemma {:induction false} EscapeEachRoundTrip(s: string)
    ensures Unescape(EscapeEach(s)) == s
  {
    if s != [] {
      EscapeEachRoundTrip(s[1..]);
      UnescapeChar(s[0], EscapeEach(s[1..]));
      assert s == [s[0]] + s[1..];
    }
  }

  lemma {:induction false} EscapeEachNoMarkup(s: string)
    ensures forall i :: 0 <= i < |EscapeEach(s)| ==> EscapeEach(s)[i] !in "<>\"'"
  {
    if s != [] {
      EscapeEachNoMarkup(s[1..]);
      var e := EscapeChar(s[0]);
      var t := EscapeEach(s[1..]);
      var u := e + t;
      assert EscapeEach(s) == u;
      forall i | 0 <= i < |u|
        ensures u[i] !in "<>\"'"
      {
        if i >= |e| {
          assert u[i] == t[i - |e|];
        }
      }
    }
  }

  /** Decimal digits of a line number, as a template literal prints it. */
  function NatToString(n: nat): (r: string)
    ensures |r| >= 1
    ensures forall i :: 0 <= i < |r| ==> IsDigit(r[i])
  {
    var d := ['0' + (n % 10) as char];
    if n < 10 then d else NatToString(n / 10) + d
  }

  /** The decimal value of a string of digits. */
  function DigitsValue(s: string): nat
  {
    if s == [] then 0
    else 10 * DigitsValue(s[..|s| - 1]) + (if IsDigit(s[|s| - 1]) then (s[|s| - 1] - '0') as nat else 0)
  }

  /** The printed line number reads back as the same number. */
  lemma {:induction false} NatToStringValue(n: nat)
    ensures DigitsValue(NatToString(n)) == n
  {
    var d := ['0' + (n % 10) as char];
    if n >= 10 {
      NatToStringValue(n / 10);
      var r := NatToString(n / 10) + d;
      assert r[..|r| - 1] == NatToString(n / 10);
    }
  }

  /** The text `withSourceRange` inserts after the tag name. */
  function RangeAttributes(startLine: nat, endLine: nat): string
  {
    " data-src-line-start=\"" + NatToString(startLine) + "\" data-src-line-end=\"" + NatToString(endLine) + "\""
  }

  /** `/^<([a-zA-Z0-9]+)/`: the end of the leading tag name, if the HTML starts with one. */
  function TagNameEnd(html: string): Option<nat>
  {
    if html != [] && html[0] == '<' && LeadingAlnum(html[1..]) >= 1 then Some(1 + LeadingAlnum(html[1..]))
    else None
  }

  /** `withSourceRange`: the two data attributes after the first tag name. */
  function WithSourceRange(html: string, startLine: nat, endLine: nat): string
  {
    match TagNameEnd(html)
    case None => html
    case Some(k) => html[..k] + RangeAttributes(startLine, endLine) + html[k..]
  }

  /**
   * `withSourceRange` changes nothing but inserting the attribute text, and
   * inserts it right after the whole tag name of a leading tag; HTML without
   * a leading tag is left alone.
   */
  lemma {:induction false} WithSourceRangeFacts(html: string, startLine: nat, endLine: nat)
    ensures var r := WithSourceRange(html, startLine, endLine);
            var a := RangeAttributes(startLine, endLine);
            match TagNameEnd(html)
            case None => r == html
            case Some(k) =>
              k <= |html| && |r| == |html| + |a|
              && r[..k] + r[k + |a|..] == html && r[k..k + |a|] == a
              && (forall j :: 1 <= j < k ==> IsAlnum(html[j]))
              && (k == |html| || !IsAlnum(html[k]))
  {
    if TagNameEnd(html).Some? {
      TagNameEndFacts(html);
      InsertAt(html, TagNameEnd(html).value, RangeAttributes(startLine, endLine));
    }
  }

  /** The tag name runs over letters and digits from the second character up to its end. */
  lemma TagNameEndFacts(html: string)
    requires TagNameEnd(html).Some?
    ensures var k := TagNameEnd(html).value;
            k <= |html| && (forall j :: 1 <= j < k ==> IsAlnum(html[j])) && (k == |html| || !IsAlnum(html[k]))
  {
    LeadingAlnumFacts(html[1..]);
    var k := 1 + LeadingAlnum(html[1..]);
    forall j | 1 <= j < k ensures IsAlnum(html[j]) {
      assert html[j] == html[1..][j - 1];
    }
    if k < |html| {
      assert html[k] == html[1..][k - 1];
    }
  }

  /** Text inserted at a position can be cut out again, leaving the original. */
  lemma InsertAt(s: string, k: nat, a: string)
    requires k <= |s|
    ensures var r := s[..k] + a + s[k..];
            |r| == |s| + |a| && r[..k] + r[k + |a|..] == s && r[k..k + |a|] == a
  {
    var r := s[..k] + a + s[k..];
    assert r[..k] == s[..k];
    assert r[k + |a|..] == s[k..];
    assert r[k..k + |a|] == a;
  }

  lemma {:induction false} LeadingAlnumFacts(s: string)
    ensures var n := LeadingAlnum(s);
            (forall j :: 0 <= j < n ==> IsAlnum(s[j])) && (n == |s| || !IsAlnum(s[n]))
  {
    if s != [] && IsAlnum(s[0]) {
      LeadingAlnumFacts(s[1..]);
    }
  }
}
