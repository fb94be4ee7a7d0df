/**
 * Scroll arithmetic shared by the editor and the preview pane: clamping,
 * scroll ratios, the mapping from a source line to a preview offset through
 * the rendered blocks, and the anchor read off the preview's top edge.
 * Positions are reals; `Number.isFinite` is the `Finite?` test of `Num`.
 */
module ScrollMath {
  import opened Common

  /** `clamp(value, min, max)`: a non-finite value gives `min`. */
  function Clamp(value: Num, lo: real, hi: real): (r: real)
    ensures !value.Finite? ==> r == lo
    ensures lo <= hi ==> lo <= r <= hi
    ensures value.Finite? && lo <= value.value <= hi ==> r == value.value
  {
    if !value.Finite? then lo else Min(hi, Max(lo, value.value))
  }

  lemma ClampMonotone(a: real, b: real, lo: real, hi: real)
    requires a <= b && lo <= hi
    ensures Clamp(Finite(a), lo, hi) <= Clamp(Finite(b), lo, hi)
  {
  }

  /** A scrollable element's geometry. */
  datatype Viewport = Viewport(scrollTop: real, scrollHeight: real, clientHeight: real)

  /** `getMaxScrollTop`: how far the element can scroll; 0 without an element. */
  function GetMaxScrollTop(el: Option<Viewport>): (r: real)
    ensures r >= 0.0
    ensures el.None? ==> r == 0.0
    ensures el.Some? && el.value.scrollHeight >= el.value.clientHeight ==> r == el.value.scrollHeight - el.value.clientHeight
    ensures el.Some? && el.value.scrollHeight < el.value.clientHeight ==> r == 0.0
  {
    if el.None? then 0.0 else Max(0.0, el.value.scrollHeight - el.value.clientHeight)
  }

  /** A usable scroll range: finite and positive. */
  predicate ValidMax(maxScrollTop: Num)
  {
    maxScrollTop.Finite? && maxScrollTop.value > 0.0
  }

  /** `getScrollRatio(scrollTop, maxScrollTop)`. */
  function GetScrollRatio(scrollTop: Num, maxScrollTop: Num): (r: real)
    ensures 0.0 <= r <= 1.0
    ensures !ValidMax(maxScrollTop) ==> r == 0.0
    ensures ValidMax(maxScrollTop) && scrollTop.Finite? && 0.0 <= scrollTop.value <= maxScrollTop.value
            ==> r * maxScrollTop.value == scrollTop.value
    ensures ValidMax(maxScrollTop) && scrollTop.Finite? && scrollTop.value >= maxScrollTop.value ==> r == 1.0
  {
    if !ValidMax(maxScrollTop) then 0.0
    else if !scrollTop.Finite? then Clamp(NonFinite, 0.0, 1.0)
    else Clamp(Finite(scrollTop.value / maxScrollTop.value), 0.0, 1.0)
  }

  /** `scrollTopFromRatio(ratio, maxScrollTop)`. */
  function ScrollTopFromRatio(ratio: Num, maxScrollTop: Num): (r: real)
    ensures !ValidMax(maxScrollTop) ==> r == 0.0
    ensures ValidMax(maxScrollTop) ==> 0.0 <= r <= maxScrollTop.value
    ensures ValidMax(maxScrollTop) && ratio.Finite? && ratio.value >= 1.0 ==> r == maxScrollTop.value
    ensures ValidMax(maxScrollTop) && ratio.Finite? && 0.0 <= ratio.value <= 1.0 ==> r == ratio.value * maxScrollTop.value
  {
    if !ValidMax(maxScrollTop) then 0.0
    else Clamp(ratio, 0.0, 1.0) * maxScrollTop.value
  }

  /** A ratio in [0, 1] survives the trip through a scroll offset. */
  lemma RatioRoundTrip(ratio: real, maxScrollTop: real)
    requires 0.0 <= ratio <= 1.0 && maxScrollTop > 0.0
    ensures GetScrollRatio(Finite(ScrollTopFromRatio(Finite(ratio), Finite(maxScrollTop))), Finite(maxScrollTop)) == ratio
  {
    var top := ScrollTopFromRatio(Finite(ratio), Finite(maxScrollTop));
    assert top == ratio * maxScrollTop;
    assert top / maxScrollTop == ratio;
  }

  /** An in-range offset survives the trip through a scroll ratio. */
  lemma OffsetRoundTrip(scrollTop: real, maxScrollTop: real)
    requires 0.0 <= scrollTop <= maxScrollTop && maxScrollTop > 0.0
    ensures ScrollTopFromRatio(Finite(GetScrollRatio(Finite(scrollTop), Finite(maxScrollTop))), Finite(maxScrollTop)) == scrollTop
  {
    var ratio := GetScrollRatio(Finite(scrollTop), Finite(maxScrollTop));
    assert ratio * maxScrollTop == scrollTop;
  }

  /** A rendered preview block: the source lines it came from and where it sits. */
  datatype PreviewBlock = PreviewBlock(startLine: int, endLine: int, top: real, height: real, text: string)

  predicate WellFormedBlock(b: PreviewBlock)
  {
    b.startLine <= b.endLine && b.height >= 1.0
  }

  /**
   * A preview element carrying `data-src-line-start`/`-end`: the parsed
   * attributes (`None` when `parseInt` gives NaN), its offset and its text.
   */
  datatype PreviewNode = PreviewNode(startAttr: Option<int>, endAttr: Option<int>, offsetTop: real, offsetHeight: real, textContent: string)

  /** One entry of `getPreviewBlocks`: start defaults to 1, end to the start and never below it, height at least 1. */
  function BlockOfNode(n: PreviewNode): (b: PreviewBlock)
    ensures WellFormedBlock(b)
    ensures b.startLine == (if n.startAttr.Some? then n.startAttr.value else 1)
    ensures n.endAttr.Some? && n.endAttr.value >= b.startLine ==> b.endLine == n.endAttr.value
    ensures (n.endAttr.None? || n.endAttr.value < b.startLine) ==> b.endLine == b.startLine
    ensures b.top == n.offsetTop && b.text == n.textContent
    ensures b.height == Max(1.0, n.offsetHeight)
  {
    var start := if n.startAttr.Some? then n.startAttr.value else 1;
    var end := IMax(start, if n.endAttr.Some? then n.endAttr.value else start);
    PreviewBlock(start, end, n.offsetTop, Max(1.0, n.offsetHeight), n.textContent)
  }

  /** `getPreviewBlocks`, over nodes already in document (top) order. */
  method GetPreviewBlocks(nodes: seq<PreviewNode>) returns (blocks: seq<PreviewBlock>)
    ensures |blocks| == |nodes|
    ensures forall i :: 0 <= i < |nodes| ==> blocks[i] == BlockOfNode(nodes[i]) && WellFormedBlock(blocks[i])
  {
    blocks := [];
    var i := 0;
    while i < |nodes|
      invariant 0 <= i <= |nodes|
      invariant |blocks| == i
      invariant forall k :: 0 <= k < i ==> blocks[k] == BlockOfNode(nodes[k])
    {
      blocks := blocks + [BlockOfNode(nodes[i])];
      i := i + 1;
    }
  }

  /** Block `j` starts at or before `line` but ends before it: the scan passes over it. */
  predicate PassedOver(blocks: seq<PreviewBlock>, line: real, j: int)
    requires 0 <= j < |blocks|
  {
    blocks[j].startLine as real <= line && line > blocks[j].endLine as real
  }

  /** Block `j` holds `line`. */
  predicate HoldsLine(blocks: seq<PreviewBlock>, line: real, j: int)
    requires 0 <= j < |blocks|
  {
    blocks[j].startLine as real <= line <= blocks[j].endLine as real
  }

  /** The scan of `findBlockForSourceLine` from block `i`, every earlier block having been passed over. */
  function ScanForLine(blocks: seq<PreviewBlock>, line: real, i: nat): (k: nat)
    requires i < |blocks|
    requires forall j :: 0 <= j < i ==> PassedOver(blocks, line, j)
    ensures k < |blocks|
    ensures forall j :: 0 <= j < k ==> PassedOver(blocks, line, j)
    ensures HoldsLine(blocks, line, k)
            || (PassedOver(blocks, line, k) && (k == |blocks| - 1 || line < blocks[k + 1].startLine as real))
            || (k == 0 && line < blocks[0].startLine as real)
    decreases |blocks| - i
  {
    if line < blocks[i].startLine as real then (if i == 0 then 0 else i - 1)
    else if line <= blocks[i].endLine as real then i
    else if i == |blocks| - 1 then i
    else ScanForLine(blocks, line, i + 1)
  }

  /**
   * `findBlockForSourceLine`: the first block holding the line found before a
   * block that starts after it; failing that the last block starting at or
   * before the line; failing that the first block. `None` without blocks.
   */
  function BlockForLine(blocks: seq<PreviewBlock>, line: real): (r: Option<nat>)
    ensures r.None? <==> |blocks| == 0
    ensures r.Some? ==> r.value < |blocks|
  {
    if |blocks| == 0 then None else Some(ScanForLine(blocks, line, 0))
  }

  /** The choice of `BlockForLine` is the unique block the three rules pick. */
  lemma BlockForLineChoice(blocks: seq<PreviewBlock>, line: real)
    requires |blocks| > 0
    ensures var k := BlockForLine(blocks, line).value;
            (forall j :: 0 <= j < k ==> PassedOver(blocks, line, j))
            && (HoldsLine(blocks, line, k)
                || (PassedOver(blocks, line, k) && (k == |blocks| - 1 || line < blocks[k + 1].startLine as real))
                || (k == 0 && line < blocks[0].startLine as real))
  {
  }

  /** The loop of `findBlockForSourceLine`. */
  method FindBlockForSourceLine(blocks: seq<PreviewBlock>, line: real) returns (r: Option<nat>)
    ensures r == BlockForLine(blocks, line)
  {
    if |blocks| == 0 {
      return None;
    }
    var candidate := 0;
    var i := 0;
    while i < |blocks|
      invariant 0 <= i <= |blocks|
      invariant forall j :: 0 <= j < i ==> PassedOver(blocks, line, j)
      invariant candidate == (if i == 0 then 0 else i - 1)
      invariant i == |blocks| ==> ScanForLine(blocks, line, 0) == |blocks| - 1
      invariant i < |blocks| ==> ScanForLine(blocks, line, 0) == ScanForLine(blocks, line, i)
      decreases |blocks| - i
    {
      if line < blocks[i].startLine as real {
        break;
      }
      candidate := i;
      if line <= blocks[i].endLine as real {
        return Some(i);
      }
      i := i + 1;
    }
    return Some(candidate);
  }

  /** How far through block `b` source position `line + fraction` lies, as a share of the block in [0, 1]. */
  function RelativeLines(b: PreviewBlock, line: real, fraction: Num): (r: real)
    ensures 0.0 <= r <= 1.0
  {
    var span := IMax(1, b.endLine - b.startLine + 1) as real;
    if fraction.Finite? then Clamp(Finite(((line - b.startLine as real) + fraction.value) / span), 0.0, 1.0)
    else Clamp(NonFinite, 0.0, 1.0)
  }

  /** The unclamped preview offset of a source position inside block `b`. */
  function OffsetInBlock(b: PreviewBlock, line: real, fraction: Num): (r: real)
    ensures b.height >= 0.0 ==> b.top <= r <= b.top + b.height
  {
    b.top + RelativeLines(b, line, fraction) * b.height
  }

  /** Inside one block, a later source line never maps to a smaller offset. */
  lemma OffsetInBlockMonotone(b: PreviewBlock, line1: real, line2: real, fraction: real)
    requires b.height > 0.0 && line1 <= line2
    ensures OffsetInBlock(b, line1, Finite(fraction)) <= OffsetInBlock(b, line2, Finite(fraction))
  {
    var span := IMax(1, b.endLine - b.startLine + 1) as real;
    var a1 := (line1 - b.startLine as real) + fraction;
    var a2 := (line2 - b.startLine as real) + fraction;
    DivideMonotone(a1, a2, span);
    ClampMonotone(a1 / span, a2 / span, 0.0, 1.0);
    var r1 := RelativeLines(b, line1, Finite(fraction));
    var r2 := RelativeLines(b, line2, Finite(fraction));
    assert r1 <= r2;
    calc {
      OffsetInBlock(b, line1, Finite(fraction));
      b.top + r1 * b.height;
    <= { MultiplyMonotone(r1, r2, b.height); }
      b.top + r2 * b.height;
      OffsetInBlock(b, line2, Finite(fraction));
    }
  }

  lemma DivideMonotone(a: real, b: real, d: real)
    requires a <= b && d > 0.0
    ensures a / d <= b / d
  {
    assert b / d - a / d == (b - a) / d;
  }

  lemma MultiplyMonotone(a: real, b: real, h: real)
    requires a <= b && h > 0.0
    ensures a * h <= b * h
  {
    assert b * h - a * h == (b - a) * h;
  }

  /** `computePreviewScrollTopFromSourceLine`. */
  function ComputePreviewScrollTop(blocks: seq<PreviewBlock>, sourceLine: Num, lineFraction: Num,
                                   fallbackRatio: Num, maxScrollTop: real): (r: real)
    ensures maxScrollTop >= 0.0 ==> 0.0 <= r <= maxScrollTop
    ensures (|blocks| == 0 || !sourceLine.Finite?) ==> r == ScrollTopFromRatio(fallbackRatio, Finite(maxScrollTop))
    ensures |blocks| > 0 && sourceLine.Finite? ==>
              var b := blocks[BlockForLine(blocks, sourceLine.value).value];
              var raw := OffsetInBlock(b, sourceLine.value, lineFraction);
              (0.0 <= raw <= maxScrollTop ==> r == raw)
  {
    if |blocks| == 0 || !sourceLine.Finite? then ScrollTopFromRatio(fallbackRatio, Finite(maxScrollTop))
    else
      var b := blocks[BlockForLine(blocks, sourceLine.value).value];
      Clamp(Finite(OffsetInBlock(b, sourceLine.value, lineFraction)), 0.0, maxScrollTop)
  }

  /** The worked example of the scroll tests: line 10.5 of a block spanning lines 6-15 at 120..420 maps to 255. */
  lemma PreviewScrollTopExample()
    ensures ComputePreviewScrollTop([PreviewBlock(1, 5, 0.0, 100.0, ""), PreviewBlock(6, 15, 120.0, 300.0, "")],
                                    Finite(10.0), Finite(0.5), Finite(0.0), 500.0) == 255.0
  {
    var blocks := [PreviewBlock(1, 5, 0.0, 100.0, ""), PreviewBlock(6, 15, 120.0, 300.0, "")];
    assert ScanForLine(blocks, 10.0, 1) == 1;
    assert BlockForLine(blocks, 10.0) == Some(1);
    assert RelativeLines(blocks[1], 10.0, Finite(0.5)) == 0.45;
  }

  /** `computeEditorScrollTopFromSourceLine`: line `n` starts `(n - 1)` line heights down. */
  function ComputeEditorScrollTop(sourceLine: Num, lineFraction: Num, lineHeight: Num,
                                  fallbackRatio: Num, maxScrollTop: real): (r: real)
    ensures maxScrollTop >= 0.0 ==> 0.0 <= r <= maxScrollTop
    ensures (!sourceLine.Finite? || !lineHeight.Finite? || lineHeight.value <= 0.0)
            ==> r == ScrollTopFromRatio(fallbackRatio, Finite(maxScrollTop))
    ensures sourceLine.Finite? && lineHeight.Finite? && lineHeight.value > 0.0 ==>
              var raw := (Max(0.0, sourceLine.value - 1.0) + Clamp(lineFraction, 0.0, 1.0)) * lineHeight.value;
              (0.0 <= raw <= maxScrollTop ==> r == raw) && (raw > maxScrollTop >= 0.0 ==> r == maxScrollTop)
  {
    if !sourceLine.Finite? || !lineHeight.Finite? || lineHeight.value <= 0.0 then
      ScrollTopFromRatio(fallbackRatio, Finite(maxScrollTop))
    else
      var lineIndex := Max(0.0, sourceLine.value - 1.0);
      Clamp(Finite((lineIndex + Clamp(lineFraction, 0.0, 1.0)) * lineHeight.value), 0.0, maxScrollTop)
  }

  /** Number of leading blocks whose top is at or above `scrollTop`. */
  function LeadingAbove(blocks: seq<PreviewBlock>, scrollTop: real): (n: nat)
    ensures n <= |blocks|
    ensures forall j :: 0 <= j < n ==> blocks[j].top <= scrollTop
    ensures n < |blocks| ==> blocks[n].top > scrollTop
  {
    if |blocks| == 0 || blocks[0].top > scrollTop then 0
    else 1 + LeadingAbove(blocks[1..], scrollTop)
  }

  /**
   * The block at the top edge of the preview, as both `getPreviewAnchor` and
   * `getPreviewTopTextSnippet` pick it: the last of the leading blocks that
   * start at or above `scrollTop`, or the first block when none does.
   */
  function TopBlockIndex(blocks: seq<PreviewBlock>, scrollTop: real): (k: nat)
    requires |blocks| > 0
    ensures k < |blocks|
    ensures k > 0 ==> forall j :: 0 <= j <= k ==> blocks[j].top <= scrollTop
    ensures k + 1 < |blocks| && blocks[0].top <= scrollTop ==> blocks[k + 1].top > scrollTop
  {
    var n := LeadingAbove(blocks, scrollTop);
    if n == 0 then 0 else n - 1
  }

  /** The `for … of blocks` loop with its early `break`. */
  method FindTopBlock(blocks: seq<PreviewBlock>, scrollTop: real) returns (k: nat)
    requires |blocks| > 0
    ensures k == TopBlockIndex(blocks, scrollTop)
  {
    k := 0;
    var i := 0;
    while i < |blocks|
      invariant 0 <= i <= |blocks|
      invariant forall j :: 0 <= j < i ==> blocks[j].top <= scrollTop
      invariant k == (if i == 0 then 0 else i - 1)
      decreases |blocks| - i
    {
      if blocks[i].top > scrollTop {
        break;
      }
      k := i;
      i := i + 1;
    }
    LeadingAboveIs(blocks, scrollTop, i);
  }

  lemma {:induction false} LeadingAboveIs(blocks: seq<PreviewBlock>, scrollTop: real, n: nat)
    requires n <= |blocks|
    requires forall j :: 0 <= j < n ==> blocks[j].top <= scrollTop
    requires n < |blocks| ==> blocks[n].top > scrollTop
    ensures LeadingAbove(blocks, scrollTop) == n
  {
    if n > 0 {
      LeadingAboveIs(blocks[1..], scrollTop, n - 1);
    }
  }

  /** A part of a whole, divided by the whole, lies in [0, 1]. */
  lemma UnitFraction(part: real, whole: real)
    requires 0.0 <= part <= whole && whole > 0.0
    ensures 0.0 <= part / whole <= 1.0
  {
    DivideMonotone(0.0, part, whole);
    DivideMonotone(part, whole, whole);
  }

  /** Scaling a number in [0, 1] by a positive length stays within [0, length]. */
  lemma UnitScale(f: real, len: real)
    requires 0.0 <= f <= 1.0 && len > 0.0
    ensures 0.0 <= f * len <= len
  {
    MultiplyMonotone(0.0, f, len);
    MultiplyMonotone(f, 1.0, len);
  }

  /** What a scroll position means in source terms: a line, a fraction into it, and the plain ratio. */
  datatype PreviewAnchor = PreviewAnchor(sourceLine: Option<int>, lineFraction: real, ratio: real)

  /** Source position of `scrollTop` inside block `b`: the line and the fraction into it. */
  function AnchorInBlock(b: PreviewBlock, scrollTop: real): (p: (int, real))
    ensures b.startLine <= p.0 <= b.startLine + IMax(1, b.endLine - b.startLine + 1)
    ensures 0.0 <= p.1 < 1.0
    ensures b.height > 0.0 ==>
              (p.0 - b.startLine) as real + p.1
              == Clamp(Finite(scrollTop - b.top), 0.0, b.height) / b.height * IMax(1, b.endLine - b.startLine + 1) as real
  {
    var offsetInBlock := Clamp(Finite(scrollTop - b.top), 0.0, b.height);
    var blockFraction := if b.height > 0.0 then offsetInBlock / b.height else 0.0;
    var lineSpan := IMax(1, b.endLine - b.startLine + 1);
    var position := blockFraction * lineSpan as real;
    assert 0.0 <= blockFraction <= 1.0 by {
      if b.height > 0.0 {
        UnitFraction(offsetInBlock, b.height);
      }
    }
    UnitScale(blockFraction, lineSpan as real);
    (b.startLine + position.Floor, position - position.Floor as real)
  }

  /** `getPreviewAnchor`, from the preview's blocks and geometry. */
  method GetPreviewAnchor(blocks: seq<PreviewBlock>, preview: Viewport) returns (a: PreviewAnchor)
    ensures a.ratio == GetScrollRatio(Finite(preview.scrollTop), Finite(GetMaxScrollTop(Some(preview))))
    ensures 0.0 <= a.ratio <= 1.0 && 0.0 <= a.lineFraction < 1.0
    ensures |blocks| == 0 ==> a.sourceLine.None? && a.lineFraction == 0.0
    ensures |blocks| > 0 ==>
              var p := AnchorInBlock(blocks[TopBlockIndex(blocks, preview.scrollTop)], preview.scrollTop);
              a.sourceLine == Some(p.0) && a.lineFraction == p.1
  {
    var maxScrollTop := GetMaxScrollTop(Some(preview));
    var ratio := GetScrollRatio(Finite(preview.scrollTop), Finite(maxScrollTop));
    if |blocks| == 0 {
      return PreviewAnchor(None, 0.0, ratio);
    }
    var k := FindTopBlock(blocks, preview.scrollTop);
    var p := AnchorInBlock(blocks[k], preview.scrollTop);
    a := PreviewAnchor(Some(p.0), p.1, ratio);
  }

  /**
   * Anchor and offset are inverse inside a block: mapping the anchor taken
   * at `scrollTop` back through `OffsetInBlock` gives `scrollTop` again
   * whenever `scrollTop` lies inside the block.
   */
  lemma AnchorOffsetRoundTrip(b: PreviewBlock, scrollTop: real)
    requires b.height > 0.0 && b.top <= scrollTop <= b.top + b.height
    ensures var p := AnchorInBlock(b, scrollTop);
            OffsetInBlock(b, p.0 as real, Finite(p.1)) == scrollTop
  {
    var p := AnchorInBlock(b, scrollTop);
    var span := IMax(1, b.endLine - b.startLine + 1) as real;
    var bf := (scrollTop - b.top) / b.height;
    assert 0.0 <= bf <= 1.0;
    assert (p.0 - b.startLine) as real + p.1 == bf * span;
    assert ((p.0 as real - b.startLine as real) + p.1) / span == bf;
    assert RelativeLines(b, p.0 as real, Finite(p.1)) == bf;
    assert bf * b.height == scrollTop - b.top;
  }
}
