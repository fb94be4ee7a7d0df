/**
 * The JavaScript string primitives the editor's text logic is built on:
 * white-space, `trim`, `toLowerCase`, `replace(/\s+/g, " ")`, `split`,
 * `join` and `indexOf`, each with the property callers rely on.
 */
module Strs {
  import opened Common

  /** The ECMAScript white-space and line-terminator set: what `trim` strips and what `\s` matches. */
  predicate IsSpace(c: char)
  {
    c == '\t' || c == '\n' || c == '\U{000B}' || c == '\U{000C}' || c == '\r' || c == ' '
    || c == '\U{00A0}' || c == '\U{1680}' || ('\U{2000}' <= c <= '\U{200A}')
    || c == '\U{2028}' || c == '\U{2029}' || c == '\U{202F}' || c == '\U{205F}'
    || c == '\U{3000}' || c == '\U{FEFF}'
  }

  predicate IsUpper(c: char) { 'A' <= c <= 'Z' }

  function LowerChar(c: char): char
  {
    if IsUpper(c) then (c as int + 32) as char else c
  }

  /** `toLowerCase`, on the ASCII letters. */
  function ToLower(s: string): string
  {
    seq(|s|, i requires 0 <= i < |s| => LowerChar(s[i]))
  }

  predicate NoUpper(s: string)
  {
    forall i :: 0 <= i < |s| ==> !IsUpper(s[i])
  }

  lemma ToLowerFacts(s: string)
    ensures |ToLower(s)| == |s| && NoUpper(ToLower(s))
    ensures forall i :: 0 <= i < |s| ==> (IsSpace(ToLower(s)[i]) <==> IsSpace(s[i]))
    ensures NoUpper(s) ==> ToLower(s) == s
  {
  }

  /** Leading white-space removed (`trimStart`). */
  function TrimStart(s: string): (r: string)
    ensures |r| <= |s|
    ensures s != [] && IsSpace(s[0]) ==> |r| < |s|
  {
    if s != [] && IsSpace(s[0]) then TrimStart(s[1..]) else s
  }

  /** `trimStart` removes exactly the leading white-space: what is left is a suffix that starts with a non-space. */
  lemma {:induction false} TrimStartFacts(s: string)
    ensures var r := TrimStart(s);
            r == s[|s| - |r|..] && (r == [] || !IsSpace(r[0]))
            && forall i :: 0 <= i < |s| - |r| ==> IsSpace(s[i])
  {
    if s != [] && IsSpace(s[0]) {
      TrimStartFacts(s[1..]);
    }
  }

  /** Trailing white-space removed (`trimEnd`). */
  function TrimEnd(s: string): (r: string)
    ensures |r| <= |s|
  {
    if s != [] && IsSpace(s[|s| - 1]) then TrimEnd(s[..|s| - 1]) else s
  }

  /** `trimEnd` removes exactly the trailing white-space: what is left is a prefix that ends with a non-space. */
  lemma {:induction false} TrimEndFacts(s: string)
    ensures var r := TrimEnd(s);
            r == s[..|r|] && (r == [] || !IsSpace(r[|r| - 1]))
            && forall i :: |r| <= i < |s| ==> IsSpace(s[i])
  {
    if s != [] && IsSpace(s[|s| - 1]) {
      TrimEndFacts(s[..|s| - 1]);
    }
  }

  /** `trim`: white-space removed from both ends. */
  function Trim(s: string): string
  {
    TrimEnd(TrimStart(s))
  }

  /** `trim` leaves an infix of its input with no white-space at either end. */
  lemma TrimFacts(s: string)
    ensures var r := Trim(s);
            var off := |s| - |TrimStart(s)|;
            off + |r| <= |s| && r == s[off..off + |r|]
            && (r == [] || (!IsSpace(r[0]) && !IsSpace(r[|r| - 1])))
  {
    var t := TrimStart(s);
    TrimStartFacts(s);
    TrimEndFacts(t);
    var r := TrimEnd(t);
    var off := |s| - |t|;
    assert r == s[off..off + |r|];
    assert r != [] ==> r[0] == t[0];
  }

  lemma TrimOfTrimmed(s: string)
    requires s == [] || (!IsSpace(s[0]) && !IsSpace(s[|s| - 1]))
    ensures Trim(s) == s
  {
  }

  /** Every white-space character is a plain space and no two spaces are adjacent. */
  predicate IsCollapsed(s: string)
  {
    (forall i :: 0 <= i < |s| ==> IsSpace(s[i]) ==> s[i] == ' ')
    && (forall i :: 0 < i < |s| ==> !(s[i - 1] == ' ' && s[i] == ' '))
  }

  /** `replace(/\s+/g, " ")`: each maximal run of white-space becomes one space. */
  function CollapseWs(s: string): (r: string)
    ensures |r| <= |s|
    decreases |s|
  {
    if s == [] then []
    else if IsSpace(s[0]) then [' '] + CollapseWs(TrimStart(s))
    else [s[0]] + CollapseWs(s[1..])
  }

  /** The result of `CollapseWs` is collapsed, keeps the input's first and last character unless they are white-space, and introduces no upper case. */
  lemma {:induction false} CollapseFacts(s: string)
    ensures var r := CollapseWs(s);
            IsCollapsed(r)
            && (NoUpper(s) ==> NoUpper(r))
            && (s == [] <==> r == [])
            && (s != [] && !IsSpace(s[0]) ==> r[0] == s[0])
            && (s != [] && IsSpace(s[0]) ==> r[0] == ' ')
            && (s != [] && !IsSpace(s[|s| - 1]) ==> r[|r| - 1] == s[|s| - 1])
            && (s != [] && IsSpace(s[|s| - 1]) ==> r[|r| - 1] == ' ')
    decreases |s|
  {
    if s != [] {
      if IsSpace(s[0]) {
        var t := TrimStart(s);
        TrimStartFacts(s);
        CollapseFacts(t);
        assert t != [] ==> s[|s| - 1] == t[|t| - 1];
      } else {
        CollapseFacts(s[1..]);
        if |s| > 1 {
          assert NoUpper(s) ==> NoUpper(s[1..]);
        }
      }
    }
  }

  lemma {:induction false} CollapseOfCollapsed(s: string)
    requires IsCollapsed(s)
    ensures CollapseWs(s) == s
    decreases |s|
  {
    if s == [] {
    } else if IsSpace(s[0]) {
      assert s[0] == ' ';
      assert TrimStart(s) == s[1..] by {
        assert |s| > 1 ==> s[1] != ' ';
        assert |s| > 1 ==> !IsSpace(s[1]);
        assert TrimStart(s[1..]) == s[1..];
      }
      CollapseOfCollapsed(s[1..]);
    } else {
      assert IsCollapsed(s[1..]);
      CollapseOfCollapsed(s[1..]);
    }
  }

  /** JavaScript `split` on a one-character separator: never empty, and `""` splits to `[""]`. */
  function Split(s: string, sep: char): (r: seq<string>)
    ensures |r| >= 1
    ensures forall k :: 0 <= k < |r| ==> sep !in r[k]
    decreases |s|
  {
    if s == [] then [""]
    else
      var rest := Split(s[1..], sep);
      if s[0] == sep then [""] + rest
      else [[s[0]] + rest[0]] + rest[1..]
  }

  /** A string without the separator splits to itself alone. */
  lemma {:induction false} SplitNoSep(s: string, sep: char)
    requires sep !in s
    ensures Split(s, sep) == [s]
    decreases |s|
  {
    if s != [] {
      SplitNoSep(s[1..], sep);
      assert [s[0]] + s[1..] == s;
    }
  }

  /** Splitting at the first separator: the piece before it, then the split of the rest. */
  lemma {:induction false} SplitFirst(a: string, sep: char, b: string)
    requires sep !in a
    ensures Split(a + [sep] + b, sep) == [a] + Split(b, sep)
    decreases |a|
  {
    if a == [] {
      assert a + [sep] + b == [sep] + b;
      assert ([sep] + b)[1..] == b;
    } else {
      var s := a + [sep] + b;
      assert s[0] == a[0] && s[1..] == a[1..] + [sep] + b;
      SplitFirst(a[1..], sep, b);
      assert [a[0]] + a[1..] == a;
    }
  }

  /** JavaScript `join`. */
  function Join(parts: seq<string>, sep: string): string
  {
    if |parts| == 0 then ""
    else if |parts| == 1 then parts[0]
    else parts[0] + sep + Join(parts[1..], sep)
  }

  /** Splitting loses nothing: joining the pieces back with the separator gives the input. */
  lemma {:induction false} JoinSplit(s: string, sep: char)
    ensures Join(Split(s, sep), [sep]) == s
    decreases |s|
  {
    if s != [] {
      var rest := Split(s[1..], sep);
      JoinSplit(s[1..], sep);
      if s[0] == sep {
        assert Split(s, sep) == [""] + rest;
      } else {
        var r := Split(s, sep);
        assert r == [[s[0]] + rest[0]] + rest[1..];
        if |rest| == 1 {
          assert Join(r, [sep]) == [s[0]] + rest[0];
        } else {
          assert Join(r, [sep]) == [s[0]] + rest[0] + [sep] + Join(rest[1..], [sep]);
          assert Join(rest, [sep]) == rest[0] + [sep] + Join(rest[1..], [sep]);
        }
      }
    }
  }

  /** `needle` occurs in `hay` starting at position `i`. */
  predicate OccursAt(hay: string, needle: string, i: int)
  {
    0 <= i && i + |needle| <= |hay| && hay[i..i + |needle|] == needle
  }

  /** `indexOf(needle, from)`. */
  function IndexOfFrom(hay: string, needle: string, from: nat): (r: Option<nat>)
    requires from <= |hay|
    ensures r.Some? ==> from <= r.value <= |hay|
    decreases |hay| - from
  {
    if OccursAt(hay, needle, from) then Some(from)
    else if from == |hay| then None
    else IndexOfFrom(hay, needle, from + 1)
  }

  /** `indexOf` finds the first occurrence at or after `from`, and reports none only when there is none. */
  lemma {:induction false} IndexOfFromFacts(hay: string, needle: string, from: nat)
    requires from <= |hay|
    ensures var r := IndexOfFrom(hay, needle, from);
            (r.Some? ==> OccursAt(hay, needle, r.value) && forall j :: from <= j < r.value ==> !OccursAt(hay, needle, j))
            && (r.None? ==> forall j :: from <= j ==> !OccursAt(hay, needle, j))
    decreases |hay| - from
  {
    if !OccursAt(hay, needle, from) && from < |hay| {
      IndexOfFromFacts(hay, needle, from + 1);
    }
  }

  /** `indexOf(needle)`, with JavaScript's -1 written as `None`. */
  function IndexOf(hay: string, needle: string): Option<nat>
  {
    IndexOfFrom(hay, needle, 0)
  }

  /** `indexOf` gives the least position where `needle` occurs, and `None` exactly when it occurs nowhere. */
  lemma IndexOfFacts(hay: string, needle: string)
    ensures var r := IndexOf(hay, needle);
            (r.Some? ==> OccursAt(hay, needle, r.value) && forall j :: 0 <= j < r.value ==> !OccursAt(hay, needle, j))
            && (r.None? <==> forall j :: !OccursAt(hay, needle, j))
  {
    IndexOfFromFacts(hay, needle, 0);
  }

  /** `includes(needle)`. */
  predicate Contains(hay: string, needle: string)
  {
    IndexOf(hay, needle).Some?
  }

  /** `startsWith(prefix)`. */
  predicate StartsWith(s: string, prefix: string)
  {
    |prefix| <= |s| && s[..|prefix|] == prefix
  }

  /** Number of occurrences of `c` in `s`. */
  function CountChar(s: string, c: char): nat
  {
    if s == [] then 0 else (if s[0] == c then 1 else 0) + CountChar(s[1..], c)
  }

  lemma CountCharAppend(s: string, t: string, c: char)
    ensures CountChar(s + t, c) == CountChar(s, c) + CountChar(t, c)
  {
    if s != [] {
      assert (s + t)[0] == s[0] && (s + t)[1..] == s[1..] + t;
      CountCharAppend(s[1..], t, c);
    } else {
      assert s + t == t;
    }
  }
}
