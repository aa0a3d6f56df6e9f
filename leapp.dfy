/** The leapp command line and environment that `check` and `install` build
    before handing over to leapp. */
module Leapp {
  import opened Platform

  /** The leapp subcommand: `preupgrade` for `check`, `upgrade` for `install`. */
  datatype Verb = Preupgrade | Upgrade

  function VerbName(v: Verb): string {
    match v
    case Preupgrade => "preupgrade"
    case Upgrade => "upgrade"
  }

  const RepoFlag := "--enablerepo="

  /** The arguments every leapp run gets (lines 111 and 297). */
  function FixedArgv(v: Verb): seq<string> {
    ["leapp", VerbName(v), "--no-rhsm", "--enablerepo=vz8", "--enablerepo=vzlinux8"]
  }

  function RepoArgs(repos: seq<string>): seq<string> {
    seq(|repos|, i requires 0 <= i < |repos| => RepoFlag + repos[i])
  }

  /** `--debug` wins over `--verbose`. */
  function Verbosity(o: Options): seq<string> {
    if o.debug then ["--debug"] else if o.verbose then ["--verbose"] else []
  }

  function LeappArgv(v: Verb, o: Options): seq<string> {
    FixedArgv(v) + RepoArgs(o.enableRepo) + Verbosity(o)
  }

  /** `d = dict(os.environ)`, with `SKIPVZ=1` added under `--skip-vz`. */
  function LeappEnv(environ: map<string, string>, skipVz: bool): map<string, string> {
    if skipVz then environ["SKIPVZ" := "1"] else environ
  }

  /** The appends of lines 111-119 (and 297-305). */
  method BuildLeappCommand(v: Verb, o: Options) returns (argv: seq<string>)
    ensures argv == LeappArgv(v, o)
  {
    argv := FixedArgv(v);
    var i := 0;
    while i < |o.enableRepo|
      invariant 0 <= i <= |o.enableRepo|
      invariant argv == FixedArgv(v) + RepoArgs(o.enableRepo[..i])
    {
      assert RepoArgs(o.enableRepo[..i + 1]) == RepoArgs(o.enableRepo[..i]) + [RepoFlag + o.enableRepo[i]];
      argv := argv + [RepoFlag + o.enableRepo[i]];
      i := i + 1;
    }
    assert o.enableRepo[..i] == o.enableRepo;
    if o.debug {
      argv := argv + ["--debug"];
    } else if o.verbose {
      argv := argv + ["--verbose"];
    }
  }

  // ---- properties ----

  lemma RepoArgNotFlag(r: string)
    ensures RepoFlag + r != "--debug" && RepoFlag + r != "--verbose"
  {
    assert (RepoFlag + r)[2] == 'e';
  }

  /** The command line: the fixed prefix, one `--enablerepo=R` per extra repo
      in the given order, then at most one verbosity flag, `--debug` when
      debug is set and `--verbose` when only verbose is. */
  lemma LeappArgvShape(v: Verb, o: Options)
    ensures |LeappArgv(v, o)| == 5 + |o.enableRepo| + (if o.debug || o.verbose then 1 else 0)
    ensures LeappArgv(v, o)[..5] == ["leapp", VerbName(v), "--no-rhsm", "--enablerepo=vz8", "--enablerepo=vzlinux8"]
    ensures forall i | 0 <= i < |o.enableRepo| :: LeappArgv(v, o)[5 + i] == "--enablerepo=" + o.enableRepo[i]
    ensures "--debug" in LeappArgv(v, o) <==> o.debug
    ensures "--verbose" in LeappArgv(v, o) <==> !o.debug && o.verbose
    ensures o.debug ==> LeappArgv(v, o)[|LeappArgv(v, o)| - 1] == "--debug"
    ensures !o.debug && o.verbose ==> LeappArgv(v, o)[|LeappArgv(v, o)| - 1] == "--verbose"
  {
    var a := LeappArgv(v, o);
    var n := |o.enableRepo|;
    assert a[..5] == FixedArgv(v);
    forall i | 0 <= i < |a| - |Verbosity(o)|
      ensures a[i] != "--debug" && a[i] != "--verbose"
    {
      if i >= 5 {
        assert a[i] == RepoFlag + o.enableRepo[i - 5];
        RepoArgNotFlag(o.enableRepo[i - 5]);
      }
    }
    var m := |a| - |Verbosity(o)|;
    assert a[m..] == Verbosity(o);
    assert forall i | m <= i < |a| :: a[i] == Verbosity(o)[i - m];
  }

  /** The environment is the inherited one, with `SKIPVZ=1` exactly under
      `--skip-vz`; no other variable differs. */
  lemma LeappEnvShape(environ: map<string, string>, skipVz: bool)
    ensures var d := LeappEnv(environ, skipVz);
      && (skipVz ==> "SKIPVZ" in d && d["SKIPVZ"] == "1")
      && (!skipVz ==> d == environ)
      && (forall k | k != "SKIPVZ" :: (k in d <==> k in environ) && (k in d ==> d[k] == environ[k]))
  {
  }
}
