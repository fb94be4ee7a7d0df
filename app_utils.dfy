/**
 * Two helpers shared by the front end (src/app-utils.js): the display name of
 * a path, and clamping a number into a range.
 */
module AppUtils {
  import opened Common
  import opened Strs
  import ScrollMath

  predicate IsSeparator(c: char)
  {
    c == '/' || c == '\\'
  }

  /** `path.replace(/\\/g, "/")`. */
  function ForwardSlashes(path: string): (r: string)
    ensures |r| == |path|
    ensures forall i :: 0 <= i < |path| ==> r[i] == (if path[i] == '\\' then '/' else path[i])
  {
    seq(|path|, i requires 0 <= i < |path| => if path[i] == '\\' then '/' else path[i])
  }

  function Last(parts: seq<string>): string
    requires |parts| >= 1
  {
    parts[|parts| - 1]
  }

  /**
   * `baseName`: the last `/`-separated piece once backslashes count as
   * slashes, or the whole path when that piece is empty.
   */
  function BaseName(path: string): string
  {
    var last := Last(Split(ForwardSlashes(path), '/'));
    if last != "" then last else path
  }

  /** The end of the text after its last separator, as the last piece of a split must be. */
  predicate IsLastPiece(s: string, sep: char, l: string)
  {
    sep !in l && |l| <= |s| && s[|s| - |l|..] == l
    && (|l| < |s| ==> s[|s| - |l| - 1] == sep)
  }

  /** A last piece of the text after its first character is one of the whole text, unless it is that whole rest. */
  lemma ShiftLastPiece(s: string, sep: char, l: string)
    requires s != [] && IsLastPiece(s[1..], sep, l)
    requires |l| < |s| - 1 || s[0] == sep
    ensures IsLastPiece(s, sep, l)
  {
    assert s[1..][|s| - 1 - |l|..] == s[|s| - |l|..];
  }

  /**
   * The last piece of a split is the end of the text after its last separator:
   * a suffix without the separator that is either the whole text or follows a
   * separator.
   */
  lemma {:induction false} SplitLast(s: string, sep: char)
    ensures IsLastPiece(s, sep, Last(Split(s, sep)))
    decreases |s|
  {
    if s != [] {
      var rest := Split(s[1..], sep);
      SplitLast(s[1..], sep);
      if s[0] == sep {
        assert Split(s, sep) == [""] + rest;
        ShiftLastPiece(s, sep, Last(rest));
      } else if |rest| == 1 {
        JoinSplit(s[1..], sep);
        assert Last(Split(s, sep)) == [s[0]] + s[1..];
      } else {
        assert Last(Split(s, sep)) == Last(rest);
        if |Last(rest)| == |s| - 1 {
          assert s[1..] == Last(rest);
          SplitNoSep(s[1..], sep);
        } else {
          ShiftLastPiece(s, sep, Last(rest));
        }
      }
    }
  }

  /**
   * The base name is the text after the path's last slash or backslash; it is
   * the whole path exactly when the path is empty, has no separator, or ends
   * with one.
   */
  lemma BaseNameFacts(path: string)
    ensures var r := BaseName(path);
            |r| <= |path| && path[|path| - |r|..] == r
            && (r == path <==> path == "" || IsSeparator(path[|path| - 1]) || forall i :: 0 <= i < |path| ==> !IsSeparator(path[i]))
            && (r != path ==>
                  r != "" && (forall i :: 0 <= i < |r| ==> !IsSeparator(r[i])) && IsSeparator(path[|path| - |r| - 1]))
  {
    var n := ForwardSlashes(path);
    SplitLast(n, '/');
    var l := Last(Split(n, '/'));
    var k := |path| - |l|;
    forall i | 0 <= i < |l| ensures l[i] == path[k + i] && !IsSeparator(path[k + i]) {
      assert n[k + i] == l[i];
    }
    assert path[k..] == l;
    if l == "" {
      if path != "" {
        assert n[|n| - 1] == '/';
      }
    } else {
      assert !IsSeparator(path[|path| - 1]);
      if k > 0 {
        assert n[k - 1] == '/';
        assert IsSeparator(path[k - 1]);
        assert l != path;
      } else {
        assert l == path;
      }
    }
  }

  /** `clamp` with no guard against non-finite values. */
  function Clamp(value: real, lo: real, hi: real): (r: real)
    ensures r <= hi
    ensures lo <= hi ==> lo <= r
    ensures lo <= value <= hi ==> r == value
    ensures lo > hi ==> r == hi
  {
    Min(hi, Max(lo, value))
  }

  /** On a finite number it agrees with the scroll code's guarded `clamp`. */
  lemma ClampAgreesOnFinite(value: real, lo: real, hi: real)
    ensures Clamp(value, lo, hi) == ScrollMath.Clamp(Finite(value), lo, hi)
  {
  }
}
