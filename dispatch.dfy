/** The command-line entry point (`for_build/spark.py`): it puts the default
    standalone application in front of the user's arguments and hands them to
    exactly one of the SETUP, RUN and WRAP-UP handlers, refuses a request for
    more than one, and shows the help otherwise. */
module Spark {
  import opened Strings
  import opened Paths

  /** The file name of the standalone application next to this script. */
  const ExeName: string := "spark_samapp"

  const SetupFlag: string := "--SETUP"
  const RunFlag: string := "--RUN"
  const WrapupFlag: string := "--WRAP-UP"

  /** `get_default_exe`, given the resolved path of the script itself. */
  function DefaultExe(realFile: string): (r: string)
    ensures r == Dirname(realFile) + "/" + ExeName
  {
    JoinPath2(Dirname(realFile), ExeName);
    JoinPath([Dirname(realFile), ExeName])
  }

  /** The default application is named `spark_samapp` and sits in the
      script's own directory. */
  lemma DefaultExeBeside(realFile: string)
    requires Dirname(realFile) != [] && Dirname(realFile)[|Dirname(realFile)| - 1] != Sep
    ensures Basename(DefaultExe(realFile)) == ExeName
    ensures Dirname(DefaultExe(realFile)) == Dirname(realFile)
  {
    var dir := Dirname(realFile);
    assert dir + "/" + ExeName == dir + [Sep] + ExeName;
    BasenameOfJoin(dir, ExeName);
    DirnameOfJoin(dir, ExeName);
  }

  datatype Mode = SetupMode | RunMode | WrapupMode

  function Flag(m: Mode): string {
    match m
    case SetupMode => SetupFlag
    case RunMode => RunFlag
    case WrapupMode => WrapupFlag
  }

  /** What the entry point does: refuse, call one handler with the full
      argument list, or show the help. */
  datatype Action = Conflict | Handle(mode: Mode, args: seq<string>) | Help

  /** `sum([do_setup, do_run, do_wrapup])` */
  function CountTrue(flags: seq<bool>): (n: nat)
    ensures n <= |flags|
  {
    if flags == [] then 0 else (if flags[0] then 1 else 0) + CountTrue(flags[1..])
  }

  /** `spark(iargs)`: the mode flags are looked for, as whole arguments, in
      the list with `--exe <default>` in front. */
  function Dispatch(realFile: string, user: seq<string>): Action {
    var iargs := ["--exe", DefaultExe(realFile)] + user;
    var doSetup := SetupFlag in iargs;
    var doRun := RunFlag in iargs;
    var doWrapup := WrapupFlag in iargs;
    if CountTrue([doSetup, doRun, doWrapup]) > 1 then Conflict
    else if doSetup then Handle(SetupMode, iargs)
    else if doRun then Handle(RunMode, iargs)
    else if doWrapup then Handle(WrapupMode, iargs)
    else Help
  }

  /** The exit status: 1 after a conflict, 0 after the help, and otherwise
      the status the handler exits with. */
  function ExitStatus(a: Action, handlerStatus: int): (s: int)
    ensures a.Conflict? ==> s == 1
    ensures a.Help? ==> s == 0
    ensures a.Handle? ==> s == handlerStatus
  {
    match a
    case Conflict => 1
    case Help => 0
    case Handle(_, _) => handlerStatus
  }

  /** The number of mode flags among the user's own arguments. */
  function FlagsGiven(user: seq<string>): nat {
    (if SetupFlag in user then 1 else 0) + (if RunFlag in user then 1 else 0) + (if WrapupFlag in user then 1 else 0)
  }

  /** The prepended pair never holds a mode flag: the default application's
      path is longer than any of them. */
  lemma PrefixHasNoFlag(realFile: string, user: seq<string>, m: Mode)
    ensures Flag(m) in ["--exe", DefaultExe(realFile)] + user <==> Flag(m) in user
  {
    var exe := DefaultExe(realFile);
    assert |exe| > |Flag(m)|;
    assert Flag(m) != "--exe";
  }

  /** Two or more mode flags among the user's arguments give a conflict and
      no handler; exactly one calls its handler with `--exe <default>` in
      front of the user's arguments, kept in order; none shows the help. */
  lemma DispatchByFlags(realFile: string, user: seq<string>)
    ensures Dispatch(realFile, user).Conflict? <==> FlagsGiven(user) >= 2
    ensures Dispatch(realFile, user).Help? <==> FlagsGiven(user) == 0
    ensures forall m: Mode ::
      (Dispatch(realFile, user) == Handle(m, ["--exe", DefaultExe(realFile)] + user))
      <==> (FlagsGiven(user) == 1 && Flag(m) in user)
  {
    PrefixHasNoFlag(realFile, user, SetupMode);
    PrefixHasNoFlag(realFile, user, RunMode);
    PrefixHasNoFlag(realFile, user, WrapupMode);
    CountThree(SetupFlag in user, RunFlag in user, WrapupFlag in user);
  }

  lemma CountThree(a: bool, b: bool, c: bool)
    ensures CountTrue([a, b, c]) == (if a then 1 else 0) + (if b then 1 else 0) + (if c then 1 else 0)
  {
    assert [a, b, c][1..] == [b, c];
    assert [b, c][1..] == [c];
    assert [c][1..] == [];
    assert CountTrue([c]) == if c then 1 else 0;
    assert CountTrue([b, c]) == (if b then 1 else 0) + CountTrue([c]);
  }

  /** Flags are matched as whole arguments: lower case or with a value
      attached they select nothing. */
  lemma ExactTokensOnly(realFile: string)
    ensures Dispatch(realFile, ["--setup"]) == Help
    ensures Dispatch(realFile, ["--SETUP=x", "--RUN"]) == Handle(RunMode, ["--exe", DefaultExe(realFile), "--SETUP=x", "--RUN"])
  {
    DispatchByFlags(realFile, ["--setup"]);
    DispatchByFlags(realFile, ["--SETUP=x", "--RUN"]);
    assert "--setup" != SetupFlag by { assert "--setup"[2] != SetupFlag[2]; }
    assert "--SETUP=x" != SetupFlag;
  }
}
