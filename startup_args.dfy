/**
 * The command-line front of the `teex` binary (src-tauri/src/main.rs): what
 * the arguments after the program name ask for.
 */
module StartupArgs {
  import opened Common

  datatype StartupAction =
    | LaunchApp(wait: bool, appArgs: seq<string>)
    | InstallSkill
    | PrintHelp
    | UsageError(message: string)

  const InstallSkillExtraMessage: string := "install-skill does not accept additional arguments"

  predicate IsHelp(arg: string)
  {
    arg == "--help" || arg == "-h"
  }

  /** `arg.starts_with('-')`. */
  predicate IsFlag(arg: string)
  {
    |arg| > 0 && arg[0] == '-'
  }

  /** The first argument that starts with `-` and is not `--wait`. */
  function FirstUnknownFlag(args: seq<string>): (r: Option<string>)
    ensures r.Some? ==> r.value in args && IsFlag(r.value) && r.value != "--wait"
    ensures r.None? ==> forall a :: a in args && IsFlag(a) ==> a == "--wait"
  {
    if args == [] then None
    else if args[0] != "--wait" && IsFlag(args[0]) then Some(args[0])
    else FirstUnknownFlag(args[1..])
  }

  /** The arguments other than `--wait`, in order. */
  function WithoutWait(args: seq<string>): (r: seq<string>)
    ensures forall a :: a in r <==> a in args && a != "--wait"
    ensures |r| <= |args|
  {
    if args == [] then []
    else (if args[0] == "--wait" then [] else [args[0]]) + WithoutWait(args[1..])
  }

  /** `parse_startup_action`. */
  function ParseStartupActionSpec(args: seq<string>): StartupAction
  {
    if exists k :: 0 <= k < |args| && IsHelp(args[k]) then PrintHelp
    else if |args| > 0 && args[0] == "install-skill" then
      if |args| == 1 then InstallSkill else UsageError(InstallSkillExtraMessage)
    else
      match FirstUnknownFlag(args)
      case Some(flag) => UsageError("Unknown flag: " + flag)
      case None => LaunchApp("--wait" in args, WithoutWait(args))
  }

  /** `parse_startup_action`: a scan for help, the `install-skill` check, then one pass over the arguments. */
  method ParseStartupAction(args: seq<string>) returns (action: StartupAction)
    ensures action == ParseStartupActionSpec(args)
  {
    for k := 0 to |args|
      invariant forall j :: 0 <= j < k ==> !IsHelp(args[j])
    {
      if IsHelp(args[k]) {
        return PrintHelp;
      }
    }
    if |args| > 0 && args[0] == "install-skill" {
      if |args| == 1 {
        return InstallSkill;
      }
      return UsageError(InstallSkillExtraMessage);
    }
    var wait := false;
    var appArgs: seq<string> := [];
    for i := 0 to |args|
      invariant wait == ("--wait" in args[..i])
      invariant appArgs == WithoutWait(args[..i])
      invariant FirstUnknownFlag(args[..i]).None?
    {
      ScanStep(args, i);
      var arg := args[i];
      if arg == "--wait" {
        wait := true;
        continue;
      }
      if IsFlag(arg) {
        UnknownFlagAt(args, i);
        return UsageError("Unknown flag: " + arg);
      }
      appArgs := appArgs + [arg];
    }
    assert args[..|args|] == args;
    return LaunchApp(wait, appArgs);
  }

  /** How one more argument extends the scan's view of the arguments. */
  lemma ScanStep(args: seq<string>, i: nat)
    requires i < |args|
    ensures ("--wait" in args[..i + 1]) == ("--wait" in args[..i] || args[i] == "--wait")
    ensures WithoutWait(args[..i + 1]) == WithoutWait(args[..i]) + (if args[i] == "--wait" then [] else [args[i]])
    ensures FirstUnknownFlag(args[..i]).None? ==>
              FirstUnknownFlag(args[..i + 1]) == if args[i] != "--wait" && IsFlag(args[i]) then Some(args[i]) else None
  {
    assert args[..i + 1] == args[..i] + [args[i]];
    AppendOne(args[..i], args[i]);
  }

  lemma {:induction false} AppendOne(args: seq<string>, x: string)
    ensures WithoutWait(args + [x]) == WithoutWait(args) + (if x == "--wait" then [] else [x])
    ensures FirstUnknownFlag(args).None? ==>
              FirstUnknownFlag(args + [x]) == if x != "--wait" && IsFlag(x) then Some(x) else None
  {
    if args != [] {
      assert (args + [x])[1..] == args[1..] + [x];
      AppendOne(args[1..], x);
    }
  }

  /** When the scan stops at an unknown flag, that flag is the first one of the whole list. */
  lemma UnknownFlagAt(args: seq<string>, i: nat)
    requires i < |args| && FirstUnknownFlag(args[..i]).None?
    requires args[i] != "--wait" && IsFlag(args[i])
    ensures FirstUnknownFlag(args) == Some(args[i])
  {
    ScanStep(args, i);
    FirstUnknownFlagPrefix(args, i + 1);
  }

  lemma {:induction false} FirstUnknownFlagPrefix(args: seq<string>, n: nat)
    requires n <= |args| && FirstUnknownFlag(args[..n]).Some?
    ensures FirstUnknownFlag(args) == FirstUnknownFlag(args[..n])
  {
    assert n > 0;
    if !(args[0] != "--wait" && IsFlag(args[0])) {
      assert args[..n][1..] == args[1..][..n - 1];
      FirstUnknownFlagPrefix(args[1..], n - 1);
    }
  }

  /**
   * Help wins wherever it appears; `install-skill` stands alone or is a usage
   * error; any other flag but `--wait` is a usage error naming the first such
   * flag; otherwise the app launches, waiting exactly when some argument is
   * `--wait`, with the remaining arguments in their order.
   */
  lemma ParseStartupActionFacts(args: seq<string>)
    ensures var r := ParseStartupActionSpec(args);
            ((exists k :: 0 <= k < |args| && IsHelp(args[k])) ==> r == PrintHelp)
            && (r == InstallSkill <==> args == ["install-skill"])
            && (r.UsageError? && r.message != InstallSkillExtraMessage ==>
                  exists k :: 0 <= k < |args| && IsFlag(args[k]) && args[k] != "--wait" && r.message == "Unknown flag: " + args[k])
            && (r.LaunchApp? ==>
                  (r.wait <==> "--wait" in args) && r.appArgs == WithoutWait(args)
                  && forall a :: a in r.appArgs ==> !IsFlag(a))
            && (args == [] ==> r == LaunchApp(false, []))
  {
    InstallSkillAlone(args);
    UnknownFlagNamed(args);
    LaunchKeepsOrder(args);
  }

  lemma InstallSkillAlone(args: seq<string>)
    ensures ParseStartupActionSpec(args) == InstallSkill <==> args == ["install-skill"]
  {
    if args == ["install-skill"] {
      assert !IsHelp(args[0]);
    }
  }

  lemma UnknownFlagNamed(args: seq<string>)
    ensures var r := ParseStartupActionSpec(args);
            r.UsageError? && r.message != InstallSkillExtraMessage ==>
              exists k :: 0 <= k < |args| && IsFlag(args[k]) && args[k] != "--wait" && r.message == "Unknown flag: " + args[k]
  {
    var r := ParseStartupActionSpec(args);
    if r.UsageError? && r.message != InstallSkillExtraMessage {
      var f := FirstUnknownFlag(args).value;
      var k :| 0 <= k < |args| && args[k] == f;
    }
  }

  lemma LaunchKeepsOrder(args: seq<string>)
    ensures var r := ParseStartupActionSpec(args);
            r.LaunchApp? ==>
              (r.wait <==> "--wait" in args) && r.appArgs == WithoutWait(args)
              && forall a :: a in r.appArgs ==> !IsFlag(a)
  {
  }

  /** Plain arguments launch the app with exactly those arguments; `--wait` anywhere only adds waiting. */
  lemma PlainArgumentsLaunch(args: seq<string>, before: seq<string>, after: seq<string>)
    requires forall a :: a in args ==> !IsFlag(a)
    requires forall a :: a in before + after ==> !IsFlag(a)
    requires (|args| == 0 || args[0] != "install-skill") && (|before| == 0 || before[0] != "install-skill")
    ensures ParseStartupActionSpec(args) == LaunchApp(false, args)
    ensures ParseStartupActionSpec(before + ["--wait"] + after) == LaunchApp(true, before + after)
  {
    PlainLaunch(args);
    WaitLaunch(before, after);
  }

  lemma PlainLaunch(args: seq<string>)
    requires forall a :: a in args ==> !IsFlag(a)
    requires |args| == 0 || args[0] != "install-skill"
    ensures ParseStartupActionSpec(args) == LaunchApp(false, args)
  {
    NoFlagsKept(args);
    forall k | 0 <= k < |args| ensures !IsHelp(args[k]) {
      assert args[k] in args;
    }
    assert IsFlag("--wait");
  }

  lemma WaitLaunch(before: seq<string>, after: seq<string>)
    requires forall a :: a in before + after ==> !IsFlag(a)
    requires |before| == 0 || before[0] != "install-skill"
    ensures ParseStartupActionSpec(before + ["--wait"] + after) == LaunchApp(true, before + after)
  {
    var w := before + ["--wait"] + after;
    assert w[|before|] == "--wait";
    forall k | 0 <= k < |w| ensures w[k] == "--wait" || w[k] in before + after {
      if k < |before| {
        assert w[k] == (before + after)[k];
      } else if k > |before| {
        assert w[k] == (before + after)[k - 1];
      }
    }
    forall k | 0 <= k < |w| ensures !IsHelp(w[k]) {
    }
    forall a | a in w ensures a == "--wait" || a in before + after {
      var k :| 0 <= k < |w| && w[k] == a;
    }
    assert FirstUnknownFlag(w).None?;
    WithoutWaitSplit(before, after);
    NoFlagsKept(before + after);
  }

  lemma {:induction false} NoFlagsKept(args: seq<string>)
    requires forall a :: a in args ==> !IsFlag(a)
    ensures WithoutWait(args) == args && FirstUnknownFlag(args).None?
  {
    if args != [] {
      assert IsFlag("--wait") && args[0] in args;
      NoFlagsKept(args[1..]);
    }
  }

  lemma {:induction false} WithoutWaitSplit(before: seq<string>, after: seq<string>)
    ensures WithoutWait(before + ["--wait"] + after) == WithoutWait(before + after)
  {
    if before == [] {
      var w := before + ["--wait"] + after;
      assert w == ["--wait"] + after;
      assert w[0] == "--wait" && w[1..] == after;
      assert WithoutWait(w) == WithoutWait(after);
      assert before + after == after;
    } else {
      assert (before + ["--wait"] + after)[1..] == before[1..] + ["--wait"] + after;
      assert (before + after)[1..] == before[1..] + after;
      WithoutWaitSplit(before[1..], after);
    }
  }
}
