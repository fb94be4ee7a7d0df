/**
 * The checks behind "Install Command Line Tool" (src-tauri/src/cli_install.rs):
 * whether the running executable sits somewhere stable enough to link to, and
 * which directory of the user's home the `teex` link goes into.
 *
 * The `PATH` variable is a parameter (`None` when it is unset), split on `:`
 * as `env::split_paths` does on Unix.
 */
module CliInstall {
  import opened Common
  import Strs
  import RustPath

  const VolumesMessage: string :=
    "Teex appears to be running from the mounted installer image. Drag Teex to Applications, open it from there, then try “Install Command Line Tool...” again."

  const TranslocationMessage: string :=
    "Teex is running from a temporary App Translocation path. Move it to a permanent location (for example /Applications), reopen it, then try again."

  const VolumesRoot: string := "/Volumes/"
  const TranslocationMarker: string := "/AppTranslocation/"

  /** `ensure_cli_source_path_is_stable`. */
  function EnsureCliSourcePathIsStable(exe: string): Result<()>
  {
    if RustPath.PathStartsWith(exe, VolumesRoot) then Err(VolumesMessage)
    else if Strs.Contains(exe, TranslocationMarker) then Err(TranslocationMessage)
    else Ok(())
  }

  /** The components of `/Volumes/`: the root and `Volumes`. */
  lemma VolumesComponents()
    ensures RustPath.ComponentList(VolumesRoot) == ["/", "Volumes"]
  {
    assert VolumesRoot == "/" + "Volumes" + "/";
    RootedDirComponents("Volumes");
  }

  /** `/name/` is the root and that one name. */
  lemma RootedDirComponents(name: string)
    requires RustPath.IsNormalName(name)
    ensures RustPath.ComponentList("/" + name + "/") == ["/", name]
  {
    var p := "/" + name + "/";
    Strs.SplitFirst(name, '/', "");
    assert name + ['/'] + "" == name + "/";
    Strs.SplitFirst("", '/', name + "/");
    assert "" + ['/'] + (name + "/") == p;
    assert Strs.Split("", '/') == [""];
    assert Strs.Split(p, '/') == ["", name, ""];
    var pieces := ["", name, ""];
    assert pieces[1..] == [name, ""] && pieces[1..][1..] == [""];
    assert RustPath.NormalParts([""]) == [];
    assert RustPath.NormalParts([name, ""]) == [name];
    assert RustPath.NormalParts(pieces) == [name];
    assert RustPath.IsRooted(p);
  }

  /**
   * A path is refused as on the installer image exactly when its first two
   * components are the root and `Volumes` (so `/Volumes//x` is refused and
   * `/VolumesX/x` is not), and as translocated exactly when it is not on the
   * image and its text holds `/AppTranslocation/` somewhere; every other
   * path is accepted.
   */
  lemma EnsureCliSourcePathIsStableFacts(exe: string)
    ensures var c := RustPath.ComponentList(exe);
            var r := EnsureCliSourcePathIsStable(exe);
            (r == Err(VolumesMessage) <==> |c| >= 2 && c[0] == "/" && c[1] == "Volumes")
            && (r == Err(TranslocationMessage) <==>
                  !(|c| >= 2 && c[0] == "/" && c[1] == "Volumes")
                  && exists i :: Strs.OccursAt(exe, TranslocationMarker, i))
            && (r.Ok? <==>
                  !(|c| >= 2 && c[0] == "/" && c[1] == "Volumes")
                  && forall i :: !Strs.OccursAt(exe, TranslocationMarker, i))
  {
    UnderVolumes(exe);
    MessagesDiffer();
    Strs.IndexOfFacts(exe, TranslocationMarker);
  }

  lemma MessagesDiffer()
    ensures VolumesMessage != TranslocationMessage
  {
    assert |VolumesMessage| != |TranslocationMessage|;
  }

  /** `starts_with("/Volumes/")` looks at the first two components. */
  lemma UnderVolumes(exe: string)
    ensures var c := RustPath.ComponentList(exe);
            RustPath.PathStartsWith(exe, VolumesRoot) <==> |c| >= 2 && c[0] == "/" && c[1] == "Volumes"
  {
    VolumesComponents();
    StartsWithTwo(exe, VolumesRoot, "/", "Volumes");
  }

  /** Starting with a base of two components means having those two components first. */
  lemma StartsWithTwo(p: string, base: string, x: string, y: string)
    requires RustPath.ComponentList(base) == [x, y]
    ensures var c := RustPath.ComponentList(p);
            RustPath.PathStartsWith(p, base) <==> |c| >= 2 && c[0] == x && c[1] == y
  {
    var c := RustPath.ComponentList(p);
    if |c| >= 2 && c[0] == x && c[1] == y {
      assert c[..2] == [x, y];
    }
  }

  /** `path_contains_dir`: some entry of `PATH` is the same path as `dir`, compared by components. */
  predicate PathContainsDir(dir: string, pathVar: Option<string>)
  {
    pathVar.Some? && exists e :: e in Strs.Split(pathVar.value, ':') && RustPath.PathEq(e, dir)
  }

  function HomeBin(home: string): string
  {
    RustPath.Join(home, "bin")
  }

  function LocalBin(home: string): string
  {
    RustPath.Join(RustPath.Join(home, ".local"), "bin")
  }

  /** `preferred_cli_install_dir`: both branches that do not find `~/bin` on `PATH` give `~/.local/bin`. */
  function PreferredCliInstallDir(home: string, pathVar: Option<string>): string
  {
    if PathContainsDir(HomeBin(home), pathVar) then HomeBin(home) else LocalBin(home)
  }

  /**
   * The link goes into `~/bin` exactly when that directory is on `PATH`, and
   * otherwise into `~/.local/bin`, a different path; either way it is a
   * directory inside the home directory.
   */
  lemma PreferredCliInstallDirFacts(home: string, pathVar: Option<string>)
    ensures var r := PreferredCliInstallDir(home, pathVar);
            var h := RustPath.ComponentList(home);
            (RustPath.PathEq(r, HomeBin(home)) <==> PathContainsDir(HomeBin(home), pathVar))
            && (RustPath.ComponentList(r) == h + ["bin"] || RustPath.ComponentList(r) == h + [".local", "bin"])
            && RustPath.PathStartsWith(r, home)
            && (!PathContainsDir(HomeBin(home), pathVar) ==> r == LocalBin(home))
  {
    RustPath.JoinComponents(home, "bin");
    RustPath.JoinComponents(home, ".local");
    RustPath.JoinComponents(RustPath.Join(home, ".local"), "bin");
    var h := RustPath.ComponentList(home);
    assert |h + [".local", "bin"]| != |h + ["bin"]|;
    var r := PreferredCliInstallDir(home, pathVar);
    assert (h + ["bin"])[..|h|] == h;
    assert (h + [".local", "bin"])[..|h|] == h;
    assert h + [".local"] + ["bin"] == h + [".local", "bin"];
  }

  /** A `PATH` made of entries joined with `:` holds exactly those entries. */
  lemma {:induction false} SplitJoined(entries: seq<string>)
    requires |entries| >= 1 && forall k :: 0 <= k < |entries| ==> ':' !in entries[k]
    ensures Strs.Split(Strs.Join(entries, ":"), ':') == entries
  {
    if |entries| == 1 {
      Strs.SplitNoSep(entries[0], ':');
    } else {
      SplitJoined(entries[1..]);
      assert Strs.Join(entries, ":") == entries[0] + [':'] + Strs.Join(entries[1..], ":");
      Strs.SplitFirst(entries[0], ':', Strs.Join(entries[1..], ":"));
    }
  }

  /** With `PATH` set to a list of entries, the directory is found exactly when one entry is the same path. */
  lemma PathContainsListed(dir: string, entries: seq<string>)
    requires |entries| >= 1 && forall k :: 0 <= k < |entries| ==> ':' !in entries[k]
    ensures PathContainsDir(dir, Some(Strs.Join(entries, ":"))) <==> exists e :: e in entries && RustPath.PathEq(e, dir)
  {
    SplitJoined(entries);
  }

  /**
   * The match is by whole path, not by text prefix: a directory whose name
   * only begins with the wanted one (`~/bin-tools` for `~/bin`) does not put
   * `~/bin` on `PATH`, while the same directory written with a trailing slash
   * does.
   */
  lemma ExactEntryMatch(home: string, name: string, sibling: string)
    requires RustPath.IsNormalName(name) && RustPath.IsNormalName(sibling) && name != sibling
    requires ':' !in home && ':' !in sibling && ':' !in name
    ensures !PathContainsDir(RustPath.Join(home, name), Some(RustPath.Join(home, sibling)))
    ensures PathContainsDir(RustPath.Join(home, name), Some(RustPath.Join(home, name) + "/"))
  {
    RustPath.JoinDistinct(home, sibling, name);
    var s := RustPath.Join(home, sibling);
    assert ':' !in s by {
      forall i | 0 <= i < |s| ensures s[i] != ':' {
        if i < |home| {
          assert s[i] == home[i];
        } else if s[i] != '/' {
          assert s[i] in sibling by {
            assert s[|s| - |sibling|..] == sibling;
            assert s[i] == s[|s| - |sibling|..][i - (|s| - |sibling|)];
          }
        }
      }
    }
    Strs.SplitNoSep(s, ':');
    var d := RustPath.Join(home, name);
    var t := d + "/";
    TrailingSlash(d);
    assert ':' !in t by {
      forall i | 0 <= i < |t| ensures t[i] != ':' {
        if i < |home| {
          assert t[i] == home[i];
        } else if i >= |d| {
          assert t[i] == '/';
        } else if t[i] != '/' {
          assert t[i] in name by {
            assert d[|d| - |name|..] == name;
            assert t[i] == d[|d| - |name|..][i - (|d| - |name|)];
          }
        }
      }
    }
    Strs.SplitNoSep(t, ':');
    assert t in Strs.Split(t, ':');
  }

  /** A trailing slash does not change a non-empty path's components. */
  lemma TrailingSlash(p: string)
    requires p != ""
    ensures RustPath.PathEq(p + "/", p)
  {
    RustPath.SplitAround(p, '/', "");
    assert p + ['/'] + "" == p + "/";
    assert Strs.Split("", '/') == [""];
    assert RustPath.NormalParts([""]) == [];
    RustPath.AssembleAppend(RustPath.IsRooted(p), Strs.Split(p, '/'), [""]);
    assert (p + "/")[0] == p[0];
  }
}
