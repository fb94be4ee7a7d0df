/**
 * The parts of Rust's `std::path::Path` on Unix that the backend relies on:
 * splitting a path into components, comparing paths component by component,
 * `join`, `file_name` and `extension`.
 *
 * A path is its UTF-8 text. The components are written as text: `"/"` for the
 * root, `"."` for a leading current-directory component, `".."` for a parent
 * component, and the name itself for a normal one.
 */
module RustPath {
  import opened Common
  import opened Strs

  /** The pieces that are normal components or `..`: everything but empty pieces and `.`. */
  function NormalParts(pieces: seq<string>): (r: seq<string>)
    ensures forall k :: 0 <= k < |r| ==> r[k] != "" && r[k] != "." && r[k] in pieces
  {
    if pieces == [] then []
    else (if pieces[0] == "" || pieces[0] == "." then [] else [pieces[0]]) + NormalParts(pieces[1..])
  }

  predicate IsRooted(p: string)
  {
    |p| > 0 && p[0] == '/'
  }

  /**
   * `Path::components`: the root, then a `.` only when it starts a relative
   * path, then every piece between slashes that is neither empty nor `.`.
   */
  function ComponentList(p: string): seq<string>
  {
    Assemble(IsRooted(p), Split(p, '/'))
  }

  /** The components of a path with the given root and pieces between slashes. */
  function Assemble(rooted: bool, pieces: seq<string>): seq<string>
    requires |pieces| >= 1
  {
    (if rooted then ["/"] else []) + (if pieces[0] == "." then ["."] else []) + NormalParts(pieces)
  }

  /** `Path`'s `==`. */
  predicate PathEq(a: string, b: string)
  {
    ComponentList(a) == ComponentList(b)
  }

  /** `Path::starts_with`: the base's components begin the path's. */
  predicate PathStartsWith(p: string, base: string)
  {
    var c := ComponentList(p);
    var b := ComponentList(base);
    |b| <= |c| && c[..|b|] == b
  }

  /** A name that is a normal component on its own. */
  predicate IsNormalName(name: string)
  {
    name != "" && name != "." && name != ".." && '/' !in name
  }

  /** `PathBuf::join` of a relative name: a slash is added unless the base is empty or ends with one. */
  function Join(base: string, name: string): (r: string)
    requires IsNormalName(name)
    ensures |base| + |name| <= |r| <= |base| + |name| + 1
  {
    if base == [] || base[|base| - 1] == '/' then base + name else base + "/" + name
  }

  /** `Path::file_name`: the last component when it is a normal one. */
  function FileName(p: string): (r: Option<string>)
    ensures r.Some? ==> r.value != "" && '/' !in r.value && r.value != "." && r.value != ".."
  {
    var c := ComponentList(p);
    if c == [] then None
    else
      var last := c[|c| - 1];
      if last == "/" || last == "." || last == ".." then None
      else
        assert last in NormalParts(Split(p, '/'));
        Some(last)
  }

  /** The position of the last `.` in a name. */
  function LastDot(name: string): (r: Option<nat>)
    ensures r.Some? ==> r.value < |name| && name[r.value] == '.' && '.' !in name[r.value + 1..]
    ensures r.None? ==> '.' !in name
  {
    if name == [] then None
    else if name[|name| - 1] == '.' then Some(|name| - 1)
    else
      var r := LastDot(name[..|name| - 1]);
      assert name == name[..|name| - 1] + [name[|name| - 1]];
      if r.Some? then
        assert name[r.value + 1..] == name[..|name| - 1][r.value + 1..] + [name[|name| - 1]];
        r
      else r
  }

  /**
   * The extension of a file name: the text after its last `.`, with no
   * extension for `..`, for a name without a dot, or for one whose only dot
   * starts it.
   */
  function NameExtension(name: string): (r: Option<string>)
    ensures r.Some? ==> '.' !in r.value
  {
    if name == ".." then None
    else
      match LastDot(name)
      case None => None
      case Some(i) => if i == 0 then None else Some(name[i + 1..])
  }

  /** `Path::extension`. */
  function Extension(p: string): Option<string>
  {
    match FileName(p)
    case None => None
    case Some(name) => NameExtension(name)
  }

  /**
   * An extension is the text after the last dot of the file name, and that
   * dot is not the name's first character; a name with a dot after its first
   * character always has one.
   */
  lemma ExtensionFacts(name: string)
    ensures var r := NameExtension(name);
            (r.Some? ==> exists i :: 0 < i < |name| && name[i] == '.' && r.value == name[i + 1..] && '.' !in r.value)
            && (r.None? ==> name == ".." || forall i :: 0 < i < |name| ==> name[i] != '.')
  {
    var d := LastDot(name);
    if d.Some? && d.value > 0 && name != ".." {
      assert name[d.value] == '.';
    }
    if d.Some? && d.value == 0 {
      forall i | 0 < i < |name| ensures name[i] != '.' {
        assert name[i] == name[1..][i - 1];
      }
    }
  }

  /** A plain name relative to the current directory is its own file name. */
  lemma FileNameOfName(name: string)
    requires IsNormalName(name)
    ensures FileName(name) == Some(name)
  {
    SplitNoSep(name, '/');
    assert NormalParts([name]) == [name];
  }

  /** Splitting around one separator splits each side. */
  lemma {:induction false} SplitAround(a: string, sep: char, b: string)
    ensures Split(a + [sep] + b, sep) == Split(a, sep) + Split(b, sep)
    decreases |a|
  {
    if a == [] {
      assert a + [sep] + b == [sep] + b;
      assert ([sep] + b)[1..] == b;
    } else {
      assert (a + [sep] + b)[1..] == a[1..] + [sep] + b;
      SplitAround(a[1..], sep, b);
      if a[0] == sep {
        SplitAroundAtSep(a, sep, b);
      } else {
        SplitAroundAtChar(a, sep, b);
      }
    }
  }

  lemma SplitAroundAtSep(a: string, sep: char, b: string)
    requires a != [] && a[0] == sep
    requires Split(a[1..] + [sep] + b, sep) == Split(a[1..], sep) + Split(b, sep)
    ensures Split(a + [sep] + b, sep) == Split(a, sep) + Split(b, sep)
  {
    var w := a + [sep] + b;
    assert w[0] == sep && w[1..] == a[1..] + [sep] + b;
    assert Split(w, sep) == [""] + (Split(a[1..], sep) + Split(b, sep));
    assert Split(a, sep) == [""] + Split(a[1..], sep);
    ConcatAssoc([""], Split(a[1..], sep), Split(b, sep));
  }

  lemma SplitAroundAtChar(a: string, sep: char, b: string)
    requires a != [] && a[0] != sep
    requires Split(a[1..] + [sep] + b, sep) == Split(a[1..], sep) + Split(b, sep)
    ensures Split(a + [sep] + b, sep) == Split(a, sep) + Split(b, sep)
  {
    var w := a + [sep] + b;
    assert w[0] == a[0] && w[1..] == a[1..] + [sep] + b;
    var ra := Split(a[1..], sep);
    HeadTail(ra, Split(b, sep));
    assert Split(w, sep) == [[a[0]] + ra[0]] + (ra[1..] + Split(b, sep));
  }

  lemma HeadTail(x: seq<string>, y: seq<string>)
    requires |x| >= 1
    ensures (x + y)[0] == x[0] && (x + y)[1..] == x[1..] + y
  {
  }

  lemma {:induction false} NormalPartsAppend(x: seq<string>, y: seq<string>)
    ensures NormalParts(x + y) == NormalParts(x) + NormalParts(y)
  {
    if x == [] {
      assert x + y == y;
    } else {
      assert (x + y)[1..] == x[1..] + y;
      NormalPartsAppend(x[1..], y);
    }
  }

  /** More pieces after the first only add their normal components. */
  lemma AssembleAppend(rooted: bool, x: seq<string>, y: seq<string>)
    requires |x| >= 1
    ensures Assemble(rooted, x + y) == Assemble(rooted, x) + NormalParts(y)
  {
    NormalPartsAppend(x, y);
    assert (x + y)[0] == x[0];
    var lead := (if rooted then ["/"] else []) + (if x[0] == "." then ["."] else []);
    assert Assemble(rooted, x + y) == lead + (NormalParts(x) + NormalParts(y));
    ConcatAssoc(lead, NormalParts(x), NormalParts(y));
  }

  /** Joining a normal name adds exactly that one component. */
  lemma JoinComponents(base: string, name: string)
    requires IsNormalName(name)
    ensures ComponentList(Join(base, name)) == ComponentList(base) + [name]
  {
    assert NormalParts([name]) == [name];
    if base == [] {
      JoinToEmpty(name);
    } else if base[|base| - 1] == '/' {
      JoinAfterSlash(base, name);
    } else {
      assert Join(base, name) == base + ['/'] + name;
      assert Join(base, name)[0] == base[0];
      SplitAround(base, '/', name);
      SplitNoSep(name, '/');
      AssembleAppend(IsRooted(base), Split(base, '/'), [name]);
    }
  }

  lemma JoinToEmpty(name: string)
    requires IsNormalName(name)
    ensures ComponentList(Join("", name)) == [name]
  {
    SplitNoSep(name, '/');
    assert NormalParts([name]) == [name];
    assert name[0] in name;
    assert Join("", name) == name && !IsRooted(name);
    assert ComponentList(name) == Assemble(false, [name]);
  }

  lemma JoinAfterSlash(base: string, name: string)
    requires IsNormalName(name) && base != [] && base[|base| - 1] == '/'
    ensures ComponentList(Join(base, name)) == ComponentList(base) + [name]
  {
    var b := base[..|base| - 1];
    var rooted := IsRooted(base);
    assert base == b + ['/'] + "";
    assert Join(base, name) == b + ['/'] + name;
    assert Join(base, name)[0] == base[0];
    AssembleAround(rooted, b, "");
    AssembleAround(rooted, b, name);
    SplitNoSep(name, '/');
    assert NormalParts([name]) == [name];
    assert NormalParts([""]) == [];
  }

  /** The components of a path cut at one slash: those before it, then the normal ones after it. */
  lemma AssembleAround(rooted: bool, b: string, tail: string)
    ensures Assemble(rooted, Split(b + ['/'] + tail, '/')) == Assemble(rooted, Split(b, '/')) + NormalParts(Split(tail, '/'))
  {
    SplitAround(b, '/', tail);
    AssembleAppend(rooted, Split(b, '/'), Split(tail, '/'));
  }

  /** Two different names joined to the same base are different paths. */
  lemma JoinDistinct(base: string, n1: string, n2: string)
    requires IsNormalName(n1) && IsNormalName(n2) && n1 != n2
    ensures !PathEq(Join(base, n1), Join(base, n2))
  {
    JoinComponents(base, n1);
    JoinComponents(base, n2);
    var c := ComponentList(base);
    assert (c + [n1])[|c|] == n1;
  }
}
