/**
 * The sidebar's project tree (src/sidebar/tree.js): `buildEntryTree` groups
 * the folder's entries into nested folders by their '/'-separated relative
 * path, `collectFolderPaths` lists every folder path, and `renderTreeHtml`
 * walks the tree, hiding what lies under a collapsed folder.
 *
 * The tree is a value: a map from a folder's path to its node, the root at
 * `""`. A node lists its sub-folders by name, in insertion order (as the
 * source's `Map` keeps them), and the files placed directly in it.
 */
module SidebarTree {
  import opened Common
  import opened Strs
  import opened Session

  /** A path segment: non-empty and without a slash. */
  predicate IsSegment(n: string) { n != "" && '/' !in n }

  /** `filter(Boolean)` on strings: the non-empty ones, in order. */
  function NonEmpty(ps: seq<string>): seq<string>
  {
    if ps == [] then []
    else (if ps[0] == "" then [] else [ps[0]]) + NonEmpty(ps[1..])
  }

  /**
   * Filtering keeps exactly the non-empty strings of the input: every kept
   * string is one, every non-empty string is kept, and an input without an
   * empty string is kept whole.
   */
  lemma {:induction false} NonEmptyFacts(ps: seq<string>)
    ensures var r := NonEmpty(ps);
            |r| <= |ps|
            && (forall k :: 0 <= k < |r| ==> r[k] != "" && r[k] in ps)
            && (forall x :: x in r <==> x in ps && x != "")
            && ("" !in ps ==> r == ps)
  {
    if ps != [] {
      NonEmptyFacts(ps[1..]);
      var r := NonEmpty(ps);
      var rest := NonEmpty(ps[1..]);
      assert ps == [ps[0]] + ps[1..];
      forall k | 0 <= k < |r| ensures r[k] != "" && r[k] in ps {
        if ps[0] != "" && k > 0 {
          assert r[k] == rest[k - 1];
          assert rest[k - 1] in ps[1..];
        } else if ps[0] == "" {
          assert r[k] == rest[k];
          assert rest[k] in ps[1..];
        }
      }
      forall x ensures x in r <==> x in ps && x != "" {
        assert x in ps <==> x == ps[0] || x in ps[1..];
      }
    }
  }

  /** Filtering a concatenation filters each part, so the kept strings stay in input order. */
  lemma {:induction false} NonEmptyAppend(a: seq<string>, b: seq<string>)
    ensures NonEmpty(a + b) == NonEmpty(a) + NonEmpty(b)
  {
    if a == [] {
      assert a + b == b;
    } else {
      assert (a + b)[0] == a[0] && (a + b)[1..] == a[1..] + b;
      NonEmptyAppend(a[1..], b);
      ConcatAssoc(if a[0] == "" then [] else [a[0]], NonEmpty(a[1..]), NonEmpty(b));
    }
  }

  /** `relPath.split("/").filter(Boolean)`. */
  function Parts(relPath: string): seq<string>
  {
    NonEmpty(Split(relPath, '/'))
  }

  /** Every segment of a relative path is non-empty and has no slash. */
  lemma PartsFacts(relPath: string)
    ensures forall k :: 0 <= k < |Parts(relPath)| ==> IsSegment(Parts(relPath)[k])
  {
    var ps := Split(relPath, '/');
    NonEmptyFacts(ps);
    var r := NonEmpty(ps);
    forall k | 0 <= k < |r| ensures IsSegment(r[k]) {
      var m :| 0 <= m < |ps| && ps[m] == r[k];
    }
  }

  /** The path of folder `name` under the folder at `parent` (`node.path ? node.path + "/" + name : name`). */
  function ChildKey(parent: string, name: string): string
  {
    if parent == "" then name else parent + "/" + name
  }

  /** The path of the folder reached after walking the first `i` segments. */
  function ChainKey(parts: seq<string>, i: nat): string
    requires i <= |parts|
  {
    if i == 0 then "" else ChildKey(ChainKey(parts, i - 1), parts[i - 1])
  }

  lemma {:induction false} JoinSnoc(ps: seq<string>, x: string, sep: string)
    requires |ps| >= 1
    ensures Join(ps + [x], sep) == Join(ps, sep) + sep + x
  {
    if |ps| == 1 {
      assert (ps + [x])[1..] == [x];
    } else {
      assert (ps + [x])[1..] == ps[1..] + [x];
      JoinSnoc(ps[1..], x, sep);
    }
  }

  /** The folder path built step by step is the '/'-join of the segments down to it. */
  lemma {:induction false} ChainKeyIsJoin(parts: seq<string>, i: nat)
    requires 1 <= i <= |parts|
    requires forall k :: 0 <= k < |parts| ==> IsSegment(parts[k])
    ensures ChainKey(parts, i) == Join(parts[..i], "/") && ChainKey(parts, i) != ""
  {
    if i == 1 {
      assert parts[..1] == [parts[0]];
    } else {
      ChainKeyIsJoin(parts, i - 1);
      assert parts[..i] == parts[..i - 1] + [parts[i - 1]];
      JoinSnoc(parts[..i - 1], parts[i - 1], "/");
    }
  }

  /** Two folder paths built from segments are equal only for the same parent and name. */
  lemma ChildKeyInjective(p1: string, n1: string, p2: string, n2: string)
    requires IsSegment(n1) && IsSegment(n2)
    requires ChildKey(p1, n1) == ChildKey(p2, n2)
    ensures p1 == p2 && n1 == n2
  {
    var s := ChildKey(p1, n1);
    SlashBeforeName(p1, n1);
    SlashBeforeName(p2, n2);
    assert |n1| == |n2|;
    assert n1 == s[|s| - |n1|..] == n2;
    if p1 != "" {
      assert p1 == s[..|p1|] == p2;
    }
  }

  /** In a child path, the name is exactly what follows the last slash (or the whole path under the root). */
  lemma SlashBeforeName(p: string, n: string)
    requires IsSegment(n)
    ensures var s := ChildKey(p, n);
            |n| <= |s| && s[|s| - |n|..] == n
            && (forall i :: |s| - |n| <= i < |s| ==> s[i] != '/')
            && (p == "" <==> |s| == |n|)
            && (p != "" ==> s[|s| - |n| - 1] == '/' && s[..|p|] == p)
  {
    var s := ChildKey(p, n);
    forall i | |s| - |n| <= i < |s| ensures s[i] != '/' {
      assert s[i] == n[i - (|s| - |n|)];
    }
  }

  // ---------------------------------------------------------------------------
  // collectFolderPaths
  // ---------------------------------------------------------------------------

  /** `parts.slice(0, j).join("/")` for `j` from 1 to `m`. */
  function JoinedPrefixes(parts: seq<string>, m: nat): set<string>
    requires m <= |parts|
  {
    if m == 0 then {} else JoinedPrefixes(parts, m - 1) + {Join(parts[..m], "/")}
  }

  /** The folder paths one entry contributes: its proper segment prefixes. */
  function EntryFolders(e: Entry): set<string>
  {
    var parts := Parts(e.relPath);
    if |parts| <= 1 then {} else JoinedPrefixes(parts, |parts| - 1)
  }

  /** `collectFolderPaths`. */
  function CollectFolderPathsSpec(entries: seq<Entry>): set<string>
  {
    if entries == [] then {}
    else CollectFolderPathsSpec(entries[..|entries| - 1]) + EntryFolders(entries[|entries| - 1])
  }

  lemma {:induction false} JoinedPrefixesFacts(parts: seq<string>, m: nat)
    requires m <= |parts|
    ensures forall f :: f in JoinedPrefixes(parts, m) <==> exists j :: 1 <= j <= m && f == Join(parts[..j], "/")
  {
    if m > 0 {
      JoinedPrefixesFacts(parts, m - 1);
    }
  }

  /** The folders one entry contributes are the joins of its first `j` segments, for `j` short of the last. */
  lemma EntryFoldersFacts(e: Entry)
    ensures var parts := Parts(e.relPath);
            forall f :: f in EntryFolders(e) <==> exists j :: 1 <= j < |parts| && f == Join(parts[..j], "/")
  {
    var parts := Parts(e.relPath);
    if |parts| > 1 {
      JoinedPrefixesFacts(parts, |parts| - 1);
    }
  }

  /**
   * `collectFolderPaths` returns exactly the proper segment prefixes of the
   * entries' relative paths (see `EntryFoldersFacts`); a single-segment path
   * contributes nothing.
   */
  lemma CollectFolderPathsFacts(entries: seq<Entry>)
    ensures forall f :: f in CollectFolderPathsSpec(entries) <==>
              exists k :: 0 <= k < |entries| && f in EntryFolders(entries[k])
  {
    forall f | f in CollectFolderPathsSpec(entries)
      ensures exists k :: 0 <= k < |entries| && f in EntryFolders(entries[k])
    {
      CollectedFrom(entries, f);
    }
    forall f, k | 0 <= k < |entries| && f in EntryFolders(entries[k])
      ensures f in CollectFolderPathsSpec(entries)
    {
      CollectedAll(entries, k, f);
    }
  }

  lemma {:induction false} CollectedFrom(entries: seq<Entry>, f: string)
    requires f in CollectFolderPathsSpec(entries)
    ensures exists k :: 0 <= k < |entries| && f in EntryFolders(entries[k])
  {
    var init := entries[..|entries| - 1];
    if f in CollectFolderPathsSpec(init) {
      CollectedFrom(init, f);
      var k :| 0 <= k < |init| && f in EntryFolders(init[k]);
      assert entries[k] == init[k];
    } else {
      assert f in EntryFolders(entries[|entries| - 1]);
    }
  }

  lemma {:induction false} CollectedAll(entries: seq<Entry>, k: nat, f: string)
    requires k < |entries| && f in EntryFolders(entries[k])
    ensures f in CollectFolderPathsSpec(entries)
  {
    var n := |entries| - 1;
    var init := entries[..n];
    assert entries == init + [entries[n]];
    CollectSnoc(init, entries[n]);
    if k < n {
      assert entries[k] == init[k];
      CollectedAll(init, k, f);
      assert f in CollectFolderPathsSpec(init);
    } else {
      assert f in EntryFolders(entries[n]);
    }
  }

  /** `collectFolderPaths`: nested loops adding every proper prefix to a set. */
  method CollectFolderPaths(entries: seq<Entry>) returns (folders: set<string>)
    ensures folders == CollectFolderPathsSpec(entries)
  {
    folders := {};
    for k := 0 to |entries|
      invariant folders == CollectFolderPathsSpec(entries[..k])
    {
      ghost var before := folders;
      var parts := Parts(entries[k].relPath);
      EntryFoldersOfParts(entries[k], parts);
      if |parts| > 1 {
        for i := 0 to |parts| - 1
          invariant folders == before + JoinedPrefixes(parts, i)
        {
          UnionAssoc(before, JoinedPrefixes(parts, i), {Join(parts[..i + 1], "/")});
          folders := folders + {Join(parts[..i + 1], "/")};
        }
      }
      ghost var prev := entries[..k];
      assert folders == before + EntryFolders(entries[k]);
      assert entries[..k + 1] == prev + [entries[k]];
      CollectSnoc(prev, entries[k]);
    }
    assert entries[..|entries|] == entries;
  }

  // ---------------------------------------------------------------------------
  // buildEntryTree
  // ---------------------------------------------------------------------------

  /** A file leaf: its last segment, its absolute path and its relative path. */
  datatype FileNode = FileNode(name: string, path: string, relPath: string)

  /** A folder node, with its sub-folders by name and the files placed directly in it. */
  datatype Folder = Folder(path: string, name: string, subfolders: seq<string>, files: seq<FileNode>)

  type Tree = map<string, Folder>

  /** The root node `{ path: "", name: "", folders: new Map(), files: [] }`. */
  const EmptyTree: Tree := map["" := Folder("", "", [], [])]

  /** `if (!node.folders.has(name)) node.folders.set(name, { … })` for the node at `parent`. */
  function EnsureFolder(t: Tree, parent: string, name: string): Tree
  {
    if parent !in t || name in t[parent].subfolders then t
    else
      var key := ChildKey(parent, name);
      t[key := Folder(key, name, [], [])][parent := t[parent].(subfolders := t[parent].subfolders + [name])]
  }

  /** The inner loop of `buildEntryTree` over the first `i` segments. */
  function EnsureChain(t: Tree, parts: seq<string>, i: nat): Tree
    requires i <= |parts|
  {
    if i == 0 then t else EnsureFolder(EnsureChain(t, parts, i - 1), ChainKey(parts, i - 1), parts[i - 1])
  }

  /** `node.files.push(…)` on the node at `key`. */
  function AddFile(t: Tree, key: string, f: FileNode): Tree
  {
    if key in t then t[key := t[key].(files := t[key].files + [f])] else t
  }

  /** The folder an entry's file goes into: the chain of all but its last segment. */
  function LeafKey(parts: seq<string>): string
    requires |parts| >= 1
  {
    ChainKey(parts, |parts| - 1)
  }

  function LeafOf(e: Entry, parts: seq<string>): FileNode
    requires |parts| >= 1
  {
    FileNode(parts[|parts| - 1], e.path, e.relPath)
  }

  /** One turn of the entry loop of `buildEntryTree`. */
  function InsertEntry(t: Tree, e: Entry): Tree
  {
    var parts := Parts(e.relPath);
    if |parts| == 0 then t
    else AddFile(EnsureChain(t, parts, |parts| - 1), LeafKey(parts), LeafOf(e, parts))
  }

  /** `buildEntryTree`. */
  function BuildTreeSpec(entries: seq<Entry>): Tree
  {
    if entries == [] then EmptyTree
    else InsertEntry(BuildTreeSpec(entries[..|entries| - 1]), entries[|entries| - 1])
  }

  /** The files that belong directly in the folder at `key`, in entry order. */
  function FilesUnder(entries: seq<Entry>, key: string): seq<FileNode>
  {
    if entries == [] then []
    else
      var e := entries[|entries| - 1];
      var parts := Parts(e.relPath);
      FilesUnder(entries[..|entries| - 1], key)
      + (if |parts| >= 1 && LeafKey(parts) == key then [LeafOf(e, parts)] else [])
  }

  predicate NoDup(s: seq<string>)
  {
    forall a, b :: 0 <= a < b < |s| ==> s[a] != s[b]
  }

  /** The links between nodes: every named sub-folder exists, and every folder hangs off its parent once. */
  ghost predicate Linked(t: Tree)
  {
    "" in t
    && (forall k :: k in t ==> t[k].path == k && NoDup(t[k].subfolders))
    && (forall p, n :: p in t && n in t[p].subfolders ==> IsSegment(n) && ChildKey(p, n) in t)
    && (forall p, n :: IsSegment(n) && ChildKey(p, n) in t ==> p in t && n in t[p].subfolders)
  }

  /** What the tree built from `entries` holds. */
  ghost predicate Built(t: Tree, entries: seq<Entry>)
  {
    Linked(t)
    && t.Keys == {""} + CollectFolderPathsSpec(entries)
    && forall k :: k in t ==> t[k].files == FilesUnder(entries, k)
  }

  lemma EnsureFolderLinked(t: Tree, parent: string, name: string)
    requires Linked(t) && parent in t && IsSegment(name)
    ensures var r := EnsureFolder(t, parent, name);
            Linked(r) && ChildKey(parent, name) in r
  {
    if name !in t[parent].subfolders {
      var key := ChildKey(parent, name);
      var r := EnsureFolder(t, parent, name);
      assert key !in t;
      assert key != parent by {
        if parent == "" { assert key == name; } else { assert |key| > |parent|; }
      }
      forall p, n | IsSegment(n) && ChildKey(p, n) in r
        ensures p in r && n in r[p].subfolders
      {
        if ChildKey(p, n) == key {
          ChildKeyInjective(p, n, parent, name);
        }
      }
      forall k | k in r
        ensures r[k].path == k && NoDup(r[k].subfolders)
      {
        if k == parent {
          var s := t[parent].subfolders + [name];
          forall a, b | 0 <= a < b < |s| ensures s[a] != s[b] {
            if b == |s| - 1 {
              assert s[a] in t[parent].subfolders;
            }
          }
        }
      }
    }
  }

  /** Walking the segments of one entry keeps the tree linked and reaches the chain's last folder. */
  lemma {:induction false} EnsureChainLinked(t: Tree, parts: seq<string>, i: nat)
    requires Linked(t) && i <= |parts|
    requires forall k :: 0 <= k < |parts| ==> IsSegment(parts[k])
    ensures var r := EnsureChain(t, parts, i);
            Linked(r) && ChainKey(parts, i) in r
  {
    if i > 0 {
      EnsureChainLinked(t, parts, i - 1);
      EnsureFolderLinked(EnsureChain(t, parts, i - 1), ChainKey(parts, i - 1), parts[i - 1]);
    }
  }

  /** Walking the segments of one entry adds exactly the folders of its chain. */
  lemma {:induction false} EnsureChainKeys(t: Tree, parts: seq<string>, i: nat)
    requires Linked(t) && i <= |parts|
    requires forall k :: 0 <= k < |parts| ==> IsSegment(parts[k])
    ensures EnsureChain(t, parts, i).Keys == t.Keys + JoinedPrefixes(parts, i)
  {
    if i > 0 {
      EnsureChainKeys(t, parts, i - 1);
      ChainNoStray(t, parts, i - 1);
      var m := EnsureChain(t, parts, i - 1);
      var key := ChainKey(parts, i);
      EnsureFolderKeys(m, ChainKey(parts, i - 1), parts[i - 1]);
      ChainKeyIsJoin(parts, i);
      assert JoinedPrefixes(parts, i) == JoinedPrefixes(parts, i - 1) + {key};
      UnionAssoc(t.Keys, JoinedPrefixes(parts, i - 1), {key});
    }
  }

  /** Adding a folder under an existing one adds its key, unless the parent already names it. */
  lemma EnsureFolderKeys(t: Tree, parent: string, name: string)
    requires parent in t && (name in t[parent].subfolders ==> ChildKey(parent, name) in t)
    ensures EnsureFolder(t, parent, name).Keys == t.Keys + {ChildKey(parent, name)}
  {
  }

  lemma UnionAssoc(a: set<string>, b: set<string>, c: set<string>)
    ensures a + b + c == a + (b + c)
  {
  }

  /** The walk leaves the files of existing folders alone and creates empty ones. */
  lemma {:induction false} EnsureChainFiles(t: Tree, parts: seq<string>, i: nat)
    requires Linked(t) && i <= |parts|
    requires forall k :: 0 <= k < |parts| ==> IsSegment(parts[k])
    ensures var r := EnsureChain(t, parts, i);
            (forall k :: k in t ==> k in r && r[k].files == t[k].files)
            && (forall k :: k in r && k !in t ==> r[k].files == [])
  {
    if i > 0 {
      EnsureChainFiles(t, parts, i - 1);
      ChainNoStray(t, parts, i - 1);
      EnsureFolderFiles(EnsureChain(t, parts, i - 1), ChainKey(parts, i - 1), parts[i - 1]);
    }
  }

  /** After part of the walk, the next folder exists exactly when its parent already names it. */
  lemma ChainNoStray(t: Tree, parts: seq<string>, i: nat)
    requires Linked(t) && i < |parts|
    requires forall k :: 0 <= k < |parts| ==> IsSegment(parts[k])
    ensures var m := EnsureChain(t, parts, i);
            var p := ChainKey(parts, i);
            p in m && (parts[i] in m[p].subfolders <==> ChildKey(p, parts[i]) in m)
  {
    EnsureChainLinked(t, parts, i);
  }

  /** Adding one folder keeps every file list and gives the new folder none. */
  lemma EnsureFolderFiles(t: Tree, parent: string, name: string)
    requires parent in t && (name !in t[parent].subfolders ==> ChildKey(parent, name) !in t)
    ensures var r := EnsureFolder(t, parent, name);
            (forall k :: k in t ==> k in r && r[k].files == t[k].files)
            && (forall k :: k in r && k !in t ==> r[k].files == [])
  {
  }

  /** An entry's folder is the root or one of the folders the entry itself contributes. */
  lemma LeafKeyCollected(e: Entry)
    requires |Parts(e.relPath)| >= 1
    ensures var parts := Parts(e.relPath);
            LeafKey(parts) == "" || LeafKey(parts) in EntryFolders(e)
  {
    var parts := Parts(e.relPath);
    PartsFacts(e.relPath);
    if |parts| > 1 {
      ChainKeyIsJoin(parts, |parts| - 1);
      JoinedPrefixesFacts(parts, |parts| - 1);
    }
  }

  /**
   * `buildEntryTree` builds a linked tree whose folders are the root and
   * exactly the paths `collectFolderPaths` returns, and whose every folder
   * holds, in entry order, exactly the entries whose segments before the
   * last lead to it. So each entry with a non-empty segment appears exactly
   * once, named by its last segment, and entries without one are skipped.
   */
  lemma {:induction false} BuildTreeFacts(entries: seq<Entry>)
    ensures Built(BuildTreeSpec(entries), entries)
  {
    if entries == [] {
      assert forall p, n :: IsSegment(n) ==> ChildKey(p, n) != "";
    } else {
      var init := entries[..|entries| - 1];
      BuildTreeFacts(init);
      assert entries == init + [entries[|entries| - 1]];
      InsertEntryBuilt(BuildTreeSpec(init), init, entries[|entries| - 1]);
    }
  }

  /** One turn of the entry loop keeps the tree linked and extends folders and files by the entry's. */
  lemma InsertEntryBuilt(t: Tree, init: seq<Entry>, e: Entry)
    requires Built(t, init)
    ensures Built(InsertEntry(t, e), init + [e])
  {
    var entries := init + [e];
    assert entries[..|entries| - 1] == init && entries[|entries| - 1] == e;
    if |Parts(e.relPath)| == 0 {
      SkippedEntry(t, init, e);
    } else {
      PlacedEntry(t, init, e);
    }
  }

  /** An entry without a non-empty segment changes nothing. */
  lemma SkippedEntry(t: Tree, init: seq<Entry>, e: Entry)
    requires Built(t, init) && |Parts(e.relPath)| == 0
    ensures Built(InsertEntry(t, e), init + [e])
  {
    var entries := init + [e];
    assert entries[..|entries| - 1] == init && entries[|entries| - 1] == e;
    assert InsertEntry(t, e) == t;
    assert CollectFolderPathsSpec(entries) == CollectFolderPathsSpec(init);
    forall k ensures FilesUnder(entries, k) == FilesUnder(init, k) {
    }
  }

  lemma PlacedEntry(t: Tree, init: seq<Entry>, e: Entry)
    requires Built(t, init) && |Parts(e.relPath)| > 0
    ensures Built(InsertEntry(t, e), init + [e])
  {
    var parts := Parts(e.relPath);
    var m := EnsureChain(t, parts, |parts| - 1);
    PartsFacts(e.relPath);
    EnsureChainLinked(t, parts, |parts| - 1);
    EnsureChainFiles(t, parts, |parts| - 1);
    PlacedKeys(t, init, e);
    InsertEntryFiles(t, init, e, m);
    AddFileLinked(m, LeafKey(parts), LeafOf(e, parts));
  }

  /** The folders an entry's chain adds are exactly the ones it contributes to `collectFolderPaths`. */
  lemma PlacedKeys(t: Tree, init: seq<Entry>, e: Entry)
    requires Linked(t) && t.Keys == {""} + CollectFolderPathsSpec(init) && |Parts(e.relPath)| > 0
    ensures var parts := Parts(e.relPath);
            var m := EnsureChain(t, parts, |parts| - 1);
            m.Keys == {""} + CollectFolderPathsSpec(init + [e])
  {
    var parts := Parts(e.relPath);
    PartsFacts(e.relPath);
    var n := |parts| - 1;
    EnsureChainKeys(t, parts, n);
    CollectSnoc(init, e);
    assert EntryFolders(e) == JoinedPrefixes(parts, n);
  }

  /** One more entry adds its own folders. */
  lemma EntryFoldersOfParts(e: Entry, parts: seq<string>)
    requires parts == Parts(e.relPath)
    ensures |parts| <= 1 ==> EntryFolders(e) == {}
    ensures |parts| > 1 ==> EntryFolders(e) == JoinedPrefixes(parts, |parts| - 1)
  {
  }

  lemma CollectSnoc(init: seq<Entry>, e: Entry)
    ensures CollectFolderPathsSpec(init + [e]) == CollectFolderPathsSpec(init) + EntryFolders(e)
  {
    var entries := init + [e];
    assert entries[..|entries| - 1] == init && entries[|entries| - 1] == e;
  }

  lemma AddFileLinked(t: Tree, key: string, f: FileNode)
    requires Linked(t)
    ensures Linked(AddFile(t, key, f)) && AddFile(t, key, f).Keys == t.Keys
  {
    var r := AddFile(t, key, f);
    assert forall k :: k in t ==> r[k].path == t[k].path && r[k].subfolders == t[k].subfolders;
  }

  lemma InsertEntryFiles(t: Tree, init: seq<Entry>, e: Entry, m: Tree)
    requires Built(t, init)
    requires |Parts(e.relPath)| > 0
    requires m == EnsureChain(t, Parts(e.relPath), |Parts(e.relPath)| - 1)
    requires LeafKey(Parts(e.relPath)) in m && t.Keys <= m.Keys
    requires forall k :: k in t ==> m[k].files == t[k].files
    requires forall k :: k in m && k !in t ==> m[k].files == [] && k != ""
    requires forall k :: k in m && k !in t ==> k !in CollectFolderPathsSpec(init)
    ensures var r := AddFile(m, LeafKey(Parts(e.relPath)), LeafOf(e, Parts(e.relPath)));
            forall k :: k in r ==> r[k].files == FilesUnder(init + [e], k)
  {
    var entries := init + [e];
    assert entries[..|entries| - 1] == init && entries[|entries| - 1] == e;
    var parts := Parts(e.relPath);
    var r := AddFile(m, LeafKey(parts), LeafOf(e, parts));
    forall k | k in r
      ensures r[k].files == FilesUnder(entries, k)
    {
      assert FilesUnder(entries, k)
             == FilesUnder(init, k) + (if LeafKey(parts) == k then [LeafOf(e, parts)] else []);
      if k !in t {
        LeafKeysIn(init, k);
      }
    }
  }

  /** A folder not in the tree built so far has no files waiting for it. */
  lemma {:induction false} LeafKeysIn(entries: seq<Entry>, key: string)
    requires key != "" && key !in CollectFolderPathsSpec(entries)
    ensures FilesUnder(entries, key) == []
  {
    if entries != [] {
      var init := entries[..|entries| - 1];
      var e := entries[|entries| - 1];
      var parts := Parts(e.relPath);
      if |parts| >= 1 {
        LeafKeyCollected(e);
      }
      LeafKeysIn(init, key);
      assert FilesUnder(entries, key) == FilesUnder(init, key);
    }
  }

  /** `buildEntryTree`: a loop over the entries. */
  method BuildEntryTree(entries: seq<Entry>) returns (t: Tree)
    ensures t == BuildTreeSpec(entries)
  {
    t := EmptyTree;
    for k := 0 to |entries|
      invariant t == BuildTreeSpec(entries[..k])
    {
      assert entries[..k + 1][..k] == entries[..k];
      t := PlaceEntry(t, entries[k]);
    }
    assert entries[..|entries|] == entries;
  }

  /** The body of the entry loop: walk a node pointer down the segments, creating folders, then add the file. */
  method PlaceEntry(t0: Tree, entry: Entry) returns (t: Tree)
    ensures t == InsertEntry(t0, entry)
  {
    t := t0;
    var parts := Parts(entry.relPath);
    if |parts| == 0 {
      return;
    }
    var node := "";
    for i := 0 to |parts| - 1
      invariant t == EnsureChain(t0, parts, i) && node == ChainKey(parts, i)
    {
      var name := parts[i];
      var key := ChildKey(node, name);
      if node in t && name !in t[node].subfolders {
        t := t[key := Folder(key, name, [], [])][node := t[node].(subfolders := t[node].subfolders + [name])];
      }
      node := key;
    }
    if node in t {
      t := t[node := t[node].(files := t[node].files + [FileNode(parts[|parts| - 1], entry.path, entry.relPath)])];
    }
  }

  // ---------------------------------------------------------------------------
  // renderTreeHtml
  // ---------------------------------------------------------------------------

  /** `a.localeCompare(b) <= 0`, taken as comparison of character codes. */
  predicate NameLe(a: string, b: string)
  {
    if a == [] then true
    else if b == [] then false
    else a[0] < b[0] || (a[0] == b[0] && NameLe(a[1..], b[1..]))
  }

  lemma {:induction false} NameLeTotal(a: string, b: string)
    ensures NameLe(a, b) || NameLe(b, a)
  {
    if a != [] && b != [] && a[0] == b[0] {
      NameLeTotal(a[1..], b[1..]);
    }
  }

  lemma {:induction false} NameLeTrans(a: string, b: string, c: string)
    requires NameLe(a, b) && NameLe(b, c)
    ensures NameLe(a, c)
  {
    if a != [] && b != [] && c != [] && a[0] == b[0] && b[0] == c[0] {
      NameLeTrans(a[1..], b[1..], c[1..]);
    }
  }

  /** Ordered by the names `key` gives. */
  predicate SortedBy<T>(s: seq<T>, key: T -> string)
  {
    forall i, j :: 0 <= i < j < |s| ==> NameLe(key(s[i]), key(s[j]))
  }

  /** Insert `x` before the first element whose name it does not follow. */
  function InsertBy<T>(x: T, s: seq<T>, key: T -> string): seq<T>
  {
    if s == [] || NameLe(key(x), key(s[0])) then [x] + s
    else [s[0]] + InsertBy(x, s[1..], key)
  }

  /** `Array.prototype.sort` with a name comparison: an insertion sort, stable like the original. */
  function SortBy<T>(s: seq<T>, key: T -> string): seq<T>
  {
    if s == [] then [] else InsertBy(s[0], SortBy(s[1..], key), key)
  }

  lemma {:induction false} InsertByFacts<T>(x: T, s: seq<T>, key: T -> string)
    requires SortedBy(s, key)
    ensures var r := InsertBy(x, s, key);
            SortedBy(r, key) && multiset(r) == multiset(s) + multiset{x}
  {
    InsertByPerm(x, s, key);
    if s != [] && !NameLe(key(x), key(s[0])) {
      InsertByFacts(x, s[1..], key);
      InsertLater(x, s, key);
    } else if s != [] {
      InsertFront(x, s, key);
    }
  }

  lemma {:induction false} InsertByPerm<T>(x: T, s: seq<T>, key: T -> string)
    ensures multiset(InsertBy(x, s, key)) == multiset(s) + multiset{x}
  {
    if s != [] && !NameLe(key(x), key(s[0])) {
      InsertByPerm(x, s[1..], key);
      assert s == [s[0]] + s[1..];
    }
  }

  lemma InsertFront<T>(x: T, s: seq<T>, key: T -> string)
    requires SortedBy(s, key) && s != [] && NameLe(key(x), key(s[0]))
    ensures SortedBy([x] + s, key)
  {
    var r := [x] + s;
    forall i, j | 0 <= i < j < |r| ensures NameLe(key(r[i]), key(r[j])) {
      if i == 0 {
        if j > 1 {
          NameLeTrans(key(x), key(s[0]), key(s[j - 1]));
        }
      } else {
        assert r[i] == s[i - 1] && r[j] == s[j - 1];
      }
    }
  }

  lemma InsertLater<T>(x: T, s: seq<T>, key: T -> string)
    requires SortedBy(s, key) && s != [] && !NameLe(key(x), key(s[0]))
    requires SortedBy(InsertBy(x, s[1..], key), key)
    requires multiset(InsertBy(x, s[1..], key)) == multiset(s[1..]) + multiset{x}
    ensures SortedBy([s[0]] + InsertBy(x, s[1..], key), key)
  {
    var rest := InsertBy(x, s[1..], key);
    NameLeTotal(key(x), key(s[0]));
    forall y | y in rest ensures NameLe(key(s[0]), key(y)) {
      assert y in multiset(rest);
      if y != x {
        assert y in multiset(s[1..]);
        HeadBelowTail(s, key, y);
      }
    }
    ConsSorted(s[0], rest, key);
  }

  /** In a sorted sequence the head comes no later than anything after it. */
  lemma HeadBelowTail<T>(s: seq<T>, key: T -> string, y: T)
    requires SortedBy(s, key) && s != [] && y in s[1..]
    ensures NameLe(key(s[0]), key(y))
  {
    var m :| 0 <= m < |s[1..]| && s[1..][m] == y;
    assert s[m + 1] == y;
  }

  /** A head no later than every element of a sorted tail gives a sorted sequence. */
  lemma ConsSorted<T>(h: T, rest: seq<T>, key: T -> string)
    requires SortedBy(rest, key) && forall y :: y in rest ==> NameLe(key(h), key(y))
    ensures SortedBy([h] + rest, key)
  {
    var r := [h] + rest;
    forall i, j | 0 <= i < j < |r| ensures NameLe(key(r[i]), key(r[j])) {
      assert r[j] == rest[j - 1] && r[j] in rest;
      if i > 0 {
        assert r[i] == rest[i - 1];
      }
    }
  }

  /** Sorting orders by name and keeps every element, each as often. */
  lemma {:induction false} SortByFacts<T>(s: seq<T>, key: T -> string)
    ensures SortedBy(SortBy(s, key), key) && multiset(SortBy(s, key)) == multiset(s)
  {
    if s != [] {
      SortByFacts(s[1..], key);
      InsertByFacts(s[0], SortBy(s[1..], key), key);
      assert s == [s[0]] + s[1..];
    }
  }

  function FileName(f: FileNode): string { f.name }

  function SelfName(n: string): string { n }

  /** One button of the sidebar: a folder toggle or a file item, with its `--indent` depth. */
  datatype Row =
    | FolderRow(path: string, name: string, depth: nat, expanded: bool)
    | FileRow(path: string, relPath: string, name: string, depth: nat)

  /** The folders at or below `key`'s length: shrinks on every step down the tree. */
  function Below(t: Tree, key: string): set<string>
  {
    set k | k in t && |k| >= |key|
  }

  lemma BelowShrinks(t: Tree, key: string, child: string)
    requires key in t && |child| > |key|
    ensures Below(t, child) < Below(t, key)
  {
    assert key in Below(t, key) && key !in Below(t, child);
  }

  /** A sub-folder name listed by a node of a linked tree leads to a longer key in it. */
  lemma ChildInTree(t: Tree, key: string, n: string)
    requires Linked(t) && key in t && n in t[key].subfolders
    ensures ChildKey(key, n) in t && |ChildKey(key, n)| > |key|
  {
    assert IsSegment(n);
  }

  /** `renderTreeHtml(node, depth, collapsedFolders)`: the sorted folders, each followed by its contents unless collapsed, then the sorted files. */
  function RenderNode(t: Tree, key: string, depth: nat, collapsed: set<string>): seq<Row>
    requires Linked(t) && key in t
    decreases Below(t, key), 1, 0
  {
    var names := SortBy(t[key].subfolders, SelfName);
    SortByFacts(t[key].subfolders, SelfName);
    assert forall n :: n in names ==> n in t[key].subfolders by {
      forall n | n in names ensures n in t[key].subfolders {
        assert n in multiset(names);
      }
    }
    RenderFolders(t, key, names, depth, collapsed) + FileRows(SortBy(t[key].files, FileName), depth)
  }

  /** The folder loop of `renderTreeHtml` over `names`, in order. */
  /** One more folder name adds that folder's block. */
  lemma RenderFoldersSnoc(t: Tree, key: string, names: seq<string>, i: nat, depth: nat, collapsed: set<string>)
    requires Linked(t) && key in t && i < |names|
    requires forall n :: n in names ==> n in t[key].subfolders
    ensures ChildKey(key, names[i]) in t && |ChildKey(key, names[i])| > |key|
    ensures RenderFolders(t, key, names[..i + 1], depth, collapsed)
            == RenderFolders(t, key, names[..i], depth, collapsed) + ChildBlock(t, ChildKey(key, names[i]), depth, collapsed)
  {
    ChildInTree(t, key, names[i]);
    assert names[..i + 1][..i] == names[..i];
    assert names[..i + 1][i] == names[i];
  }

  function RenderFolders(t: Tree, key: string, names: seq<string>, depth: nat, collapsed: set<string>): seq<Row>
    requires Linked(t) && key in t
    requires forall n :: n in names ==> n in t[key].subfolders
    decreases Below(t, key), 0, |names|
  {
    if names == [] then []
    else
      var n := names[|names| - 1];
      ChildInTree(t, key, n);
      var child := ChildKey(key, n);
      BelowShrinks(t, key, child);
      RenderFolders(t, key, names[..|names| - 1], depth, collapsed) + ChildBlock(t, child, depth, collapsed)
  }

  /** The file loop of `renderTreeHtml`. */
  function FileRows(files: seq<FileNode>, depth: nat): seq<Row>
  {
    if files == [] then []
    else FileRows(files[..|files| - 1], depth) + [FileRow(files[|files| - 1].path, files[|files| - 1].relPath, files[|files| - 1].name, depth)]
  }

  /** What may come right after row `a`: a file only before a sibling file or a shallower row, a folder only before its first child or a row no deeper than itself. */
  predicate Follows(a: Row, b: Row)
  {
    match a
    case FileRow(_, _, _, d) => b.depth < d || (b.FileRow? && b.depth == d)
    case FolderRow(_, _, d, expanded) => if expanded then b.depth <= d + 1 else b.depth <= d
  }

  predicate Nested(rows: seq<Row>)
  {
    forall i :: 0 < i < |rows| ==> Follows(rows[i - 1], rows[i])
  }

  /** Every row is indented at least `d` deep, and the rows at exactly `d` that are allowed there. */
  predicate Within(rows: seq<Row>, d: nat)
  {
    forall i :: 0 <= i < |rows| ==> rows[i].depth >= d
  }

  predicate FoldersAt(rows: seq<Row>, d: nat)
  {
    forall i :: 0 <= i < |rows| && rows[i].depth == d ==> rows[i].FolderRow?
  }

  /** `aria-expanded` is false exactly for the folders in the collapsed set. */
  predicate ExpandedMatches(rows: seq<Row>, collapsed: set<string>)
  {
    forall i :: 0 <= i < |rows| && rows[i].FolderRow? ==> (rows[i].expanded <==> rows[i].path !in collapsed)
  }

  lemma NestedAppend(a: seq<Row>, b: seq<Row>)
    requires Nested(a) && Nested(b)
    requires |a| > 0 && |b| > 0 ==> Follows(a[|a| - 1], b[0])
    ensures Nested(a + b)
  {
    var r := a + b;
    forall i | 0 < i < |r| ensures Follows(r[i - 1], r[i]) {
      if i < |a| {
        assert r[i - 1] == a[i - 1] && r[i] == a[i];
      } else if i > |a| {
        assert r[i - 1] == b[i - 1 - |a|] && r[i] == b[i - |a|];
      }
    }
  }

  /** Any row no deeper than `d` may follow the last row of a block that stays at `d` or below with only folders at `d`. */
  lemma FollowsShallower(a: Row, b: Row, d: nat)
    requires a.depth >= d && (a.depth == d ==> a.FolderRow?) && b.depth <= d
    ensures Follows(a, b)
  {
  }

  lemma {:induction false} FileRowsShape(files: seq<FileNode>, d: nat)
    ensures var r := FileRows(files, d);
            |r| == |files| && Nested(r)
            && forall i :: 0 <= i < |r| ==> r[i].FileRow? && r[i].depth == d
  {
    if files != [] {
      FileRowsShape(files[..|files| - 1], d);
      var last := FileRows([files[|files| - 1]], d);
      NestedAppend(FileRows(files[..|files| - 1], d), [FileRow(files[|files| - 1].path, files[|files| - 1].relPath, files[|files| - 1].name, d)]);
    }
  }

  /**
   * The rows of a node start at its depth and never jump more than one level
   * deeper: a folder is followed by its own contents only when expanded, and
   * a file by nothing but a sibling file or a row of a shallower level. So a
   * collapsed folder hides everything beneath it, and at every level the
   * folders come before the files.
   */
  lemma {:induction false} RenderNodeShape(t: Tree, key: string, d: nat, collapsed: set<string>)
    requires Linked(t) && key in t
    ensures var r := RenderNode(t, key, d, collapsed);
            Within(r, d) && Nested(r) && ExpandedMatches(r, collapsed) && (|r| > 0 ==> r[0].depth == d)
    decreases Below(t, key), 1, 0
  {
    var names := SortBy(t[key].subfolders, SelfName);
    SortByFacts(t[key].subfolders, SelfName);
    assert forall n :: n in names ==> n in t[key].subfolders by {
      forall n | n in names ensures n in t[key].subfolders {
        assert n in multiset(names);
      }
    }
    var fs := RenderFolders(t, key, names, d, collapsed);
    var files := FileRows(SortBy(t[key].files, FileName), d);
    RenderFoldersShape(t, key, names, d, collapsed);
    FileRowsShape(SortBy(t[key].files, FileName), d);
    if |fs| > 0 && |files| > 0 {
      FollowsShallower(fs[|fs| - 1], files[0], d);
    }
    NestedAppend(fs, files);
    RowsAppend(fs, files, d, collapsed);
    assert fs + files == RenderNode(t, key, d, collapsed);
  }

  /** Depth bounds and expansion flags hold of two row lists together when they hold of each. */
  lemma RowsAppend(a: seq<Row>, b: seq<Row>, d: nat, collapsed: set<string>)
    requires Within(a, d) && Within(b, d) && ExpandedMatches(a, collapsed) && ExpandedMatches(b, collapsed)
    ensures Within(a + b, d) && ExpandedMatches(a + b, collapsed)
  {
    var r := a + b;
    forall i | 0 <= i < |r| ensures r[i].depth >= d && (r[i].FolderRow? ==> (r[i].expanded <==> r[i].path !in collapsed)) {
      if i >= |a| {
        assert r[i] == b[i - |a|];
      }
    }
  }

  lemma {:induction false} RenderFoldersShape(t: Tree, key: string, names: seq<string>, d: nat, collapsed: set<string>)
    requires Linked(t) && key in t
    requires forall n :: n in names ==> n in t[key].subfolders
    ensures var r := RenderFolders(t, key, names, d, collapsed);
            Within(r, d) && FoldersAt(r, d) && Nested(r) && ExpandedMatches(r, collapsed)
            && (|r| > 0 ==> r[0].depth == d)
    decreases Below(t, key), 0, |names|
  {
    if names != [] {
      var n := names[|names| - 1];
      ChildInTree(t, key, n);
      var child := ChildKey(key, n);
      BelowShrinks(t, key, child);
      var before := RenderFolders(t, key, names[..|names| - 1], d, collapsed);
      RenderFoldersShape(t, key, names[..|names| - 1], d, collapsed);
      var block := ChildBlock(t, child, d, collapsed);
      ChildBlockShape(t, child, d, collapsed);
      if |before| > 0 {
        FollowsShallower(before[|before| - 1], block[0], d);
      }
      NestedAppend(before, block);
      var r := before + block;
      assert r == RenderFolders(t, key, names, d, collapsed);
      forall i | 0 <= i < |r|
        ensures r[i].depth >= d && (r[i].depth == d ==> r[i].FolderRow?)
                && (r[i].FolderRow? ==> (r[i].expanded <==> r[i].path !in collapsed))
      {
        if i >= |before| {
          assert r[i] == block[i - |before|];
        }
      }
    }
  }

  /** One turn of the folder loop: the toggle, then the folder's own rows unless it is collapsed. */
  function ChildBlock(t: Tree, child: string, d: nat, collapsed: set<string>): seq<Row>
    requires Linked(t) && child in t
    decreases Below(t, child), 2, 0
  {
    [FolderRow(t[child].path, t[child].name, d, t[child].path !in collapsed)]
    + (if t[child].path in collapsed then [] else RenderNode(t, child, d + 1, collapsed))
  }

  lemma {:induction false} ChildBlockShape(t: Tree, child: string, d: nat, collapsed: set<string>)
    requires Linked(t) && child in t
    ensures var r := ChildBlock(t, child, d, collapsed);
            |r| > 0 && r[0].depth == d && r[0].FolderRow?
            && Within(r, d) && FoldersAt(r, d) && Nested(r) && ExpandedMatches(r, collapsed)
    decreases Below(t, child), 2, 0
  {
    var head := [FolderRow(t[child].path, t[child].name, d, t[child].path !in collapsed)];
    if t[child].path !in collapsed {
      var sub := RenderNode(t, child, d + 1, collapsed);
      RenderNodeShape(t, child, d + 1, collapsed);
      NestedAppend(head, sub);
      SubBelowHead(head[0], sub, collapsed);
    }
  }

  /** A folder toggle followed by rows one level deeper keeps the depth and `aria-expanded` properties. */
  lemma SubBelowHead(h: Row, sub: seq<Row>, collapsed: set<string>)
    requires h.FolderRow? && (h.expanded <==> h.path !in collapsed)
    requires Within(sub, h.depth + 1) && ExpandedMatches(sub, collapsed)
    ensures var r := [h] + sub;
            Within(r, h.depth) && FoldersAt(r, h.depth) && ExpandedMatches(r, collapsed)
  {
    var r := [h] + sub;
    forall i | 0 < i < |r| ensures r[i] == sub[i - 1] {
    }
  }

  /** A collapsed folder's toggle says so, and the row after it is no deeper: none of its contents is drawn. */
  lemma CollapsedHidesContents(t: Tree, depth: nat, collapsed: set<string>, i: nat)
    requires Linked(t)
    requires var r := RenderNode(t, "", depth, collapsed);
             i < |r| && r[i].FolderRow? && r[i].path in collapsed
    ensures var r := RenderNode(t, "", depth, collapsed);
            !r[i].expanded && (i + 1 < |r| ==> r[i + 1].depth <= r[i].depth)
  {
    RenderNodeShape(t, "", depth, collapsed);
  }

  /** After a file row, every row down to the next shallower one is a file of the same folder: folders come first. */
  lemma {:induction false} FilesLast(rows: seq<Row>, i: nat, j: nat)
    requires Nested(rows) && i < j < |rows| && rows[i].FileRow?
    requires forall m :: i < m <= j ==> rows[m].depth >= rows[i].depth
    ensures rows[j].FileRow? && rows[j].depth == rows[i].depth
  {
    if j > i + 1 {
      FilesLast(rows, i, j - 1);
    }
    assert Follows(rows[j - 1], rows[j]);
  }

  /** `renderTreeHtml`: loops over the sorted folders, recursing into the expanded ones, then over the sorted files. */
  method RenderTreeHtml(t: Tree, key: string, depth: nat, collapsed: set<string>) returns (rows: seq<Row>)
    requires Linked(t) && key in t
    ensures rows == RenderNode(t, key, depth, collapsed)
    decreases Below(t, key), 1
  {
    var folders := SortBy(t[key].subfolders, SelfName);
    SortByFacts(t[key].subfolders, SelfName);
    forall n | n in folders ensures n in t[key].subfolders {
      assert n in multiset(folders);
    }
    rows := [];
    for i := 0 to |folders|
      invariant rows == RenderFolders(t, key, folders[..i], depth, collapsed)
    {
      var child := ChildKey(key, folders[i]);
      RenderFoldersSnoc(t, key, folders, i, depth, collapsed);
      BelowShrinks(t, key, child);
      var block := RenderFolderToggle(t, child, depth, collapsed);
      rows := rows + block;
    }
    assert folders[..|folders|] == folders;
    var fileRows := RenderFileItems(SortBy(t[key].files, FileName), depth);
    rows := rows + fileRows;
  }

  /** The body of the folder loop: the toggle button, then the folder's contents unless it is collapsed. */
  method RenderFolderToggle(t: Tree, child: string, depth: nat, collapsed: set<string>) returns (rows: seq<Row>)
    requires Linked(t) && child in t
    ensures rows == ChildBlock(t, child, depth, collapsed)
    decreases Below(t, child), 2
  {
    var isCollapsed := t[child].path in collapsed;
    rows := [FolderRow(t[child].path, t[child].name, depth, !isCollapsed)];
    if !isCollapsed {
      var sub := RenderTreeHtml(t, child, depth + 1, collapsed);
      rows := rows + sub;
    }
  }

  /** The file loop of `renderTreeHtml`. */
  method RenderFileItems(files: seq<FileNode>, depth: nat) returns (rows: seq<Row>)
    ensures rows == FileRows(files, depth)
  {
    rows := [];
    for j := 0 to |files|
      invariant rows == FileRows(files[..j], depth)
    {
      assert files[..j + 1][..j] == files[..j];
      rows := rows + [FileRow(files[j].path, files[j].relPath, files[j].name, depth)];
    }
    assert files[..|files|] == files;
  }
}
