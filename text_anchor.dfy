/**
 * Text anchors for keeping the two panes aligned: the snippet of text at the
 * top of a pane, and the searches that find that snippet again in the
 * markdown source (as a character index or a line) or among the preview's
 * blocks.
 */
module TextAnchor {
  import opened Common
  import opened Strs
  import ScrollMath

  /** Minimum length of a searchable snippet. */
  const MinSnippetLength: nat := 8

  /** Lower-case, white-space runs collapsed to single spaces, no white-space at either end. */
  predicate IsNormalized(s: string)
  {
    NoUpper(s) && IsCollapsed(s) && (s == [] || (!IsSpace(s[0]) && !IsSpace(s[|s| - 1])))
  }

  lemma TrimKeeps(s: string)
    ensures NoUpper(s) ==> NoUpper(Trim(s))
    ensures IsCollapsed(s) ==> IsCollapsed(Trim(s))
  {
    TrimFacts(s);
    var r := Trim(s);
    var off := |s| - |TrimStart(s)|;
    assert forall i :: 0 <= i < |r| ==> r[i] == s[off + i];
  }

  /** `normalizeSearchText`: `toLowerCase`, then `replace(/\s+/g, " ")`, then `trim`. */
  function NormalizeSearchText(value: string): string
  {
    Trim(CollapseWs(ToLower(value)))
  }

  /** The output of `normalizeSearchText` is lower-case, single-spaced and trimmed, and no longer than its input. */
  lemma NormalizeOutput(value: string)
    ensures IsNormalized(NormalizeSearchText(value))
    ensures |NormalizeSearchText(value)| <= |value|
  {
    ToLowerFacts(value);
    var lowered := ToLower(value);
    var collapsed := CollapseWs(lowered);
    CollapseFacts(lowered);
    TrimKeeps(collapsed);
    TrimFacts(collapsed);
  }

  /** Normalizing twice is normalizing once. */
  lemma NormalizeIdempotent(value: string)
    ensures NormalizeSearchText(NormalizeSearchText(value)) == NormalizeSearchText(value)
  {
    var n := NormalizeSearchText(value);
    NormalizeOutput(value);
    ToLowerFacts(n);
    assert ToLower(n) == n;
    CollapseOfCollapsed(n);
    TrimOfTrimmed(n);
  }

  /**
   * `findSourceIndexBySnippet`: the first literal occurrence of the trimmed
   * snippet in the source, or `None` when the trimmed snippet is shorter
   * than 8 characters or does not occur.
   */
  function FindSourceIndexBySnippet(content: string, snippet: string): (r: Option<nat>)
    ensures |Trim(snippet)| < MinSnippetLength ==> r.None?
    ensures r.Some? ==> OccursAt(content, Trim(snippet), r.value)
                        && forall j :: 0 <= j < r.value ==> !OccursAt(content, Trim(snippet), j)
    ensures r.None? && |Trim(snippet)| >= MinSnippetLength ==> forall j :: !OccursAt(content, Trim(snippet), j)
  {
    var rawNeedle := Trim(snippet);
    IndexOfFacts(content, rawNeedle);
    if |rawNeedle| < MinSnippetLength then None else IndexOf(content, rawNeedle)
  }

  /** The 1-based line of character `index`: one more than the newlines before it. */
  method SourceIndexToLineNumber(content: string, index: Option<int>) returns (r: Option<nat>)
    ensures index.None? || index.value < 0 ==> r.None?
    ensures index.Some? && index.value >= 0 ==>
              r == Some(1 + CountChar(content[..IMin(index.value, |content|)], '\n'))
  {
    if index.None? || index.value < 0 {
      return None;
    }
    var line := 1;
    var i := 0;
    while i < index.value && i < |content|
      invariant 0 <= i <= IMin(index.value, |content|)
      invariant line == 1 + CountChar(content[..i], '\n')
      decreases |content| - i
    {
      CountCharAppend(content[..i], [content[i]], '\n');
      assert content[..i + 1] == content[..i] + [content[i]];
      if content[i] == '\n' {
        line := line + 1;
      }
      i := i + 1;
    }
    return Some(line);
  }

  /** `lines.slice(i, i + 3).join(" ")`: up to three lines starting at `i`, joined by spaces. */
  function WindowText(lines: seq<string>, i: nat): string
  {
    if i >= |lines| then "" else Join(lines[i..IMin(i + 3, |lines|)], " ")
  }

  /** The normalized window at line index `i` contains `needle`. */
  predicate WindowMatches(lines: seq<string>, i: nat, needle: string)
  {
    Contains(NormalizeSearchText(WindowText(lines, i)), needle)
  }

  /**
   * `findSourceLineBySnippet`: the 1-based number of the first line whose
   * three-line window contains the normalized snippet.
   */
  method FindSourceLineBySnippet(content: string, snippet: string) returns (r: Option<nat>)
    ensures |NormalizeSearchText(snippet)| < MinSnippetLength ==> r.None?
    ensures r.Some? ==>
              1 <= r.value <= |Split(content, '\n')|
              && WindowMatches(Split(content, '\n'), r.value - 1, NormalizeSearchText(snippet))
              && forall j :: 0 <= j < r.value - 1 ==> !WindowMatches(Split(content, '\n'), j, NormalizeSearchText(snippet))
    ensures r.None? && |NormalizeSearchText(snippet)| >= MinSnippetLength ==>
              forall j :: 0 <= j < |Split(content, '\n')| ==> !WindowMatches(Split(content, '\n'), j, NormalizeSearchText(snippet))
  {
    var needle := NormalizeSearchText(snippet);
    if |needle| < MinSnippetLength {
      return None;
    }
    var lines := Split(content, '\n');
    var i := 0;
    while i < |lines|
      invariant 0 <= i <= |lines|
      invariant forall j :: 0 <= j < i ==> !WindowMatches(lines, j, needle)
    {
      if WindowMatches(lines, i, needle) {
        return Some(i + 1);
      }
      i := i + 1;
    }
    return None;
  }

  /** Offset of the normalized needle inside block `j`'s normalized text. */
  function BlockOffset(blocks: seq<ScrollMath.PreviewBlock>, j: nat, needle: string): Option<nat>
    requires j < |blocks|
  {
    IndexOf(NormalizeSearchText(blocks[j].text), needle)
  }

  /**
   * Block `k` holds the needle at the least offset of all blocks, and every
   * earlier block that holds it does so at a greater offset.
   */
  predicate IsBestBlock(blocks: seq<ScrollMath.PreviewBlock>, k: nat, needle: string)
  {
    k < |blocks| && BlockOffset(blocks, k, needle).Some?
    && (forall j :: 0 <= j < |blocks| && BlockOffset(blocks, j, needle).Some? ==>
          BlockOffset(blocks, k, needle).value <= BlockOffset(blocks, j, needle).value)
    && (forall j :: 0 <= j < k && BlockOffset(blocks, j, needle).Some? ==>
          BlockOffset(blocks, k, needle).value < BlockOffset(blocks, j, needle).value)
  }

  /** At most one block is the best match: the least offset, the earliest block on ties. */
  lemma BestBlockUnique(blocks: seq<ScrollMath.PreviewBlock>, k: nat, m: nat, needle: string)
    requires IsBestBlock(blocks, k, needle) && IsBestBlock(blocks, m, needle)
    ensures k == m
  {
    var ok := BlockOffset(blocks, k, needle).value;
    var om := BlockOffset(blocks, m, needle).value;
    assert ok <= om && om <= ok;
    assert k < m ==> om < ok;
    assert m < k ==> ok < om;
  }

  /**
   * `findPreviewBlockBySnippet`: among the blocks whose normalized text
   * contains the normalized snippet, one at the least offset, the earliest
   * on ties. `None` without blocks, for a short snippet, or with no match.
   */
  method FindPreviewBlockBySnippet(blocks: seq<ScrollMath.PreviewBlock>, snippet: string) returns (r: Option<nat>)
    ensures |blocks| == 0 || |NormalizeSearchText(snippet)| < MinSnippetLength ==> r.None?
    ensures r.Some? ==> IsBestBlock(blocks, r.value, NormalizeSearchText(snippet))
    ensures r.None? && |blocks| > 0 && |NormalizeSearchText(snippet)| >= MinSnippetLength ==>
              forall j :: 0 <= j < |blocks| ==> BlockOffset(blocks, j, NormalizeSearchText(snippet)).None?
  {
    var needle := NormalizeSearchText(snippet);
    if |blocks| == 0 || |needle| < MinSnippetLength {
      return None;
    }
    var best: Option<nat> := None;
    var bestIndex: nat := 0;
    var k := 0;
    while k < |blocks|
      invariant 0 <= k <= |blocks|
      invariant best.None? ==> forall j :: 0 <= j < k ==> BlockOffset(blocks, j, needle).None?
      invariant best.Some? ==>
                  best.value < k && BlockOffset(blocks, best.value, needle) == Some(bestIndex)
                  && (forall j :: 0 <= j < k && BlockOffset(blocks, j, needle).Some? ==> bestIndex <= BlockOffset(blocks, j, needle).value)
                  && (forall j :: 0 <= j < best.value && BlockOffset(blocks, j, needle).Some? ==> bestIndex < BlockOffset(blocks, j, needle).value)
    {
      var index := BlockOffset(blocks, k, needle);
      if index.Some? && (best.None? || index.value < bestIndex) {
        best := Some(k);
        bestIndex := index.value;
        if index.value == 0 {
          break;
        }
      }
      k := k + 1;
    }
    return best;
  }

  /** Longest snippet taken from the editor. */
  const EditorSnippetLength: nat := 80

  /** Longest snippet taken from the preview. */
  const PreviewSnippetLength: nat := 120

  function Prefix(s: string, n: nat): (r: string)
    ensures |r| <= n && |r| <= |s| && r == s[..|r|]
    ensures |s| <= n ==> r == s
  {
    if |s| <= n then s else s[..n]
  }

  /** The index of the line at the top of the editor: `floor(scrollTop / max(lineHeight || 1, 1))`, at least 0. */
  function TopLineIndex(scrollTop: real, lineHeight: real): (i: nat)
    ensures scrollTop >= 0.0 ==> i as real * Max(lineHeight, 1.0) <= scrollTop
  {
    var h := Max(if lineHeight == 0.0 then 1.0 else lineHeight, 1.0);
    var q := (scrollTop / h).Floor;
    if q < 0 then 0 else q
  }

  /**
   * `getEditorTopTextSnippet`: at most 80 characters of the normalized text
   * of the three lines starting at the editor's top line; `""` for an empty
   * document.
   */
  function GetEditorTopTextSnippet(content: string, scrollTop: real, lineHeight: real): (r: string)
    ensures content == "" ==> r == ""
    ensures |r| <= EditorSnippetLength
    ensures content != "" ==>
              r == Prefix(NormalizeSearchText(WindowText(Split(content, '\n'), TopLineIndex(scrollTop, lineHeight))), EditorSnippetLength)
  {
    if content == "" then ""
    else
      var lines := Split(content, '\n');
      Prefix(NormalizeSearchText(WindowText(lines, TopLineIndex(scrollTop, lineHeight))), EditorSnippetLength)
  }

  /**
   * `getPreviewTopTextSnippet`: the text read at the caret position of the
   * preview's top-left corner if there is any, else the text of the block at
   * the top edge; at most 120 characters either way.
   */
  method GetPreviewTopTextSnippet(caretText: string, blocks: seq<ScrollMath.PreviewBlock>, scrollTop: real)
    returns (r: string)
    ensures |r| <= PreviewSnippetLength
    ensures caretText != "" ==> r == Prefix(caretText, PreviewSnippetLength)
    ensures caretText == "" && |blocks| == 0 ==> r == ""
    ensures caretText == "" && |blocks| > 0 ==>
              r == Prefix(blocks[ScrollMath.TopBlockIndex(blocks, scrollTop)].text, PreviewSnippetLength)
  {
    if caretText != "" {
      return Prefix(caretText, PreviewSnippetLength);
    }
    if |blocks| == 0 {
      return "";
    }
    var k := ScrollMath.FindTopBlock(blocks, scrollTop);
    r := Prefix(blocks[k].text, PreviewSnippetLength);
  }
}
