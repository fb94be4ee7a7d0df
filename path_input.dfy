/**
 * Paths arriving from the operating system or a drag and drop
 * (src/path-input.js): only non-blank strings are kept, each once, in the
 * order of first occurrence.
 *
 * A value that is not an array is `None`; an array element that is not a
 * string is `None`.
 */
module PathInput {
  import opened Common
  import opened Strs

  /** `typeof path === "string" && path.trim() !== ""`. */
  predicate Usable(p: Option<string>)
  {
    p.Some? && Trim(p.value) != ""
  }

  /** `paths.filter(...)`, as the strings kept. */
  function UsablePaths(ps: seq<Option<string>>): seq<string>
  {
    if ps == [] then []
    else UsablePaths(ps[..|ps| - 1]) + (if Usable(ps[|ps| - 1]) then [ps[|ps| - 1].value] else [])
  }

  /** `[...new Set(s)]`: a `Set` remembers insertion order, so each value at its first occurrence. */
  function Dedup(s: seq<string>): seq<string>
  {
    if s == [] then []
    else
      var d := Dedup(s[..|s| - 1]);
      if s[|s| - 1] in d then d else d + [s[|s| - 1]]
  }

  /** `normalizeIncomingPaths`. */
  function NormalizeIncomingPaths(paths: Option<seq<Option<string>>>): seq<string>
  {
    if paths.None? then [] else Dedup(UsablePaths(paths.value))
  }

  predicate NoDup(s: seq<string>)
  {
    forall i, j :: 0 <= i < j < |s| ==> s[i] != s[j]
  }

  /** The position where `x` first occurs in `s`. */
  function FirstIndex(s: seq<string>, x: string): (r: nat)
    requires x in s
    ensures r < |s| && s[r] == x && x !in s[..r]
  {
    if s[0] == x then 0 else 1 + FirstIndex(s[1..], x)
  }

  lemma FirstIndexPrefix(s: seq<string>, x: string, n: nat)
    requires n <= |s| && x in s[..n]
    ensures FirstIndex(s[..n], x) == FirstIndex(s, x)
  {
    var k := FirstIndex(s[..n], x);
    var m := FirstIndex(s, x);
    assert s[..n][..k] == s[..k];
    forall j | 0 <= j < m ensures s[j] != x {
      assert s[..m][j] == s[j];
    }
    forall j | 0 <= j < k ensures s[j] != x {
      assert s[..k][j] == s[j];
    }
  }

  lemma {:induction false} UsablePathsFacts(ps: seq<Option<string>>)
    ensures forall x :: x in UsablePaths(ps) <==> Some(x) in ps && Trim(x) != ""
  {
    if ps != [] {
      UsablePathsFacts(ps[..|ps| - 1]);
      assert ps == ps[..|ps| - 1] + [ps[|ps| - 1]];
    }
  }

  /**
   * De-duplication keeps each value once, keeps every value, and orders them
   * by where they first occur.
   */
  lemma {:induction false} DedupFacts(s: seq<string>)
    ensures var d := Dedup(s);
            NoDup(d) && (forall x :: x in d <==> x in s)
            && forall i, j :: 0 <= i < j < |d| ==> FirstIndex(s, d[i]) < FirstIndex(s, d[j])
  {
    if s != [] {
      var init := s[..|s| - 1];
      var x := s[|s| - 1];
      DedupFacts(init);
      var d0 := Dedup(init);
      assert s == init + [x];
      forall i | 0 <= i < |d0| ensures FirstIndex(s, d0[i]) == FirstIndex(init, d0[i]) {
        FirstIndexPrefix(s, d0[i], |s| - 1);
      }
      if x !in d0 {
        var d := d0 + [x];
        assert x !in init;
        assert FirstIndex(s, x) == |s| - 1 by {
          forall j | 0 <= j < |init| ensures s[j] != x {
            assert init[j] == s[j];
          }
        }
        forall i, j | 0 <= i < j < |d| ensures FirstIndex(s, d[i]) < FirstIndex(s, d[j]) {
          if j == |d| - 1 {
            assert d[i] == d0[i];
          } else {
            assert d[i] == d0[i] && d[j] == d0[j];
          }
        }
      }
    }
  }

  /** A list without repeats is its own de-duplication. */
  lemma {:induction false} DedupOfDistinct(s: seq<string>)
    requires NoDup(s)
    ensures Dedup(s) == s
  {
    if s != [] {
      var init := s[..|s| - 1];
      DedupOfDistinct(init);
      forall k | 0 <= k < |init| ensures init[k] != s[|s| - 1] {
        assert init[k] == s[k];
      }
    }
  }

  /** Nothing but usable strings are kept, each once, in the order of first occurrence. */
  lemma NormalizeIncomingPathsFacts(paths: Option<seq<Option<string>>>)
    ensures var r := NormalizeIncomingPaths(paths);
            NoDup(r) && (forall i :: 0 <= i < |r| ==> Trim(r[i]) != "")
            && (paths.None? ==> r == [])
            && (paths.Some? ==>
                  (forall x :: x in r <==> Some(x) in paths.value && Trim(x) != "")
                  && (forall x :: x in r <==> x in UsablePaths(paths.value))
                  && forall i, j :: 0 <= i < j < |r| ==>
                       FirstIndex(UsablePaths(paths.value), r[i]) < FirstIndex(UsablePaths(paths.value), r[j]))
  {
    if paths.Some? {
      UsablePathsFacts(paths.value);
      DedupFacts(UsablePaths(paths.value));
    }
  }

  /** Each path as the string element it is. */
  function AsElements(s: seq<string>): (r: seq<Option<string>>)
    ensures |r| == |s| && forall i :: 0 <= i < |s| ==> r[i] == Some(s[i])
  {
    seq(|s|, i requires 0 <= i < |s| => Some(s[i]))
  }

  lemma {:induction false} UsableOfUsable(s: seq<string>)
    requires forall i :: 0 <= i < |s| ==> Trim(s[i]) != ""
    ensures UsablePaths(AsElements(s)) == s
  {
    if s != [] {
      UsableOfUsable(s[..|s| - 1]);
      assert AsElements(s)[..|s| - 1] == AsElements(s[..|s| - 1]);
    }
  }

  /** Normalizing a normalized list changes nothing. */
  lemma NormalizeIdempotent(paths: Option<seq<Option<string>>>)
    ensures var r := NormalizeIncomingPaths(paths);
            NormalizeIncomingPaths(Some(AsElements(r))) == r
  {
    var r := NormalizeIncomingPaths(paths);
    NormalizeIncomingPathsFacts(paths);
    UsableOfUsable(r);
    DedupOfDistinct(r);
  }

  /** What a drop event carries: nothing, an array of paths, or an object whose `paths` may be an array. */
  datatype DropPayload = NoPayload | PathArray(items: seq<Option<string>>) | PathsObject(paths: Option<seq<Option<string>>>)

  /** `extractDragDropPaths`. */
  function ExtractDragDropPaths(payload: DropPayload): (r: seq<string>)
    ensures payload.NoPayload? ==> r == []
    ensures payload.PathArray? ==> r == NormalizeIncomingPaths(Some(payload.items))
    ensures payload.PathsObject? ==> r == NormalizeIncomingPaths(payload.paths)
  {
    match payload
    case NoPayload => []
    case PathArray(items) => NormalizeIncomingPaths(Some(items))
    case PathsObject(paths) => if paths.None? then [] else NormalizeIncomingPaths(paths)
  }

  /** `hasFileDragData`: `None` when the event has no `dataTransfer.types`. */
  predicate HasFileDragData(types: Option<seq<string>>)
  {
    types.Some? && "Files" in types.value
  }

  /**
   * A drag carries files exactly when one of its types is `Files`, wherever
   * it is listed; with no type list it carries none. More types never take
   * files away, and adding types adds files exactly when one of them is `Files`.
   */
  lemma HasFileDragDataFacts(types: Option<seq<string>>, more: seq<string>)
    ensures types.None? ==> !HasFileDragData(types)
    ensures HasFileDragData(types) <==> types.Some? && exists k :: 0 <= k < |types.value| && types.value[k] == "Files"
    ensures types.Some? ==>
              (HasFileDragData(Some(types.value + more)) <==> HasFileDragData(types) || "Files" in more)
              && HasFileDragData(Some(types.value + more)) == HasFileDragData(Some(more + types.value))
  {
    if types.Some? {
      var t := types.value;
      assert forall x :: x in t + more <==> x in t || x in more;
      assert forall x :: x in more + t <==> x in t || x in more;
    }
  }
}
