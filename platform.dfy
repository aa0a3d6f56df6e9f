/** The machine the upgrade tool runs on, as far as the tool sees it: the files
    it reads and writes, the answers of the commands it runs, and the trace of
    what it does (commands started and lines printed). */
module Platform {
  import opened Wrappers
  import opened Grouping

  /** The content of a file the tool only removes or copies. */
  type Content = string

  /** A directory: file name to content. */
  type Dir = map<string, Content>

  /** The parsed command line (`cmdline`). An absent `--enablerepo` and an
      empty one behave alike, so both are the empty list. */
  datatype Options = Options(
    skipVz: bool,
    enableRepo: seq<string>,
    verbose: bool,
    debug: bool,
    reboot: bool)

  /** What the commands the tool runs answer. A command whose output is
      captured with `check_output` answers `None` (or no entry) when it exits
      with a non-zero status. */
  datatype Probes = Probes(
    environ: map<string, string>,   // os.environ
    yumStatus: int,                 // exit status of `yum check-update`
    containerList: Option<string>,  // output of `vzlist -o ctid -a -H`
    osTemplate: map<string, string>,// output of `vzpkg list <ct> --os`, by container
    guestList: Option<string>,      // output of `prlctl list -a -o status,name`
    leappStatus: int)               // exit status of leapp

  /** Where a command's standard output goes. */
  datatype Sink = Inherited | Discarded | Captured | IntoFile(path: string)

  /** One visible step of the tool. `Say(t)` is `print(t)`: the text and a
      line break. `ShowTemplates(d)` prints the dictionary of unsupported
      templates. */
  datatype Action =
    | Run(argv: seq<string>, stdout: Sink)
    | RunWithEnv(argv: seq<string>, env: map<string, string>)
    | Say(text: string)
    | ShowTemplates(invalid: seq<Bucket<string, string>>)

  /** The exceptions that end the tool. */
  datatype Error =
    | MissingFile(path: string)          // open/copyfile of a missing file
    | CommandFailed(argv: seq<string>)   // check_output of a failing command
    | NoTemplateName(ctid: string)       // `split()[0]` of a blank answer
    | MalformedRosterLine(line: string)  // `(status, name) = line.split()` not two words

  /** A Python call: it returns a value or raises. */
  datatype Outcome<T> = Ok(value: T) | Raised(error: Error)

  /** The files the tool works on. `/etc/ssh/sshd_config` is held as the lines
      iterating over it yields; `None` when it does not exist. */
  datatype Files = Files(
    sshdConfig: Option<seq<string>>,
    repos: Dir,     // /etc/yum.repos.d
    vzShare: Dir,   // /usr/share/vzupgrade
    answers: Dir,   // /etc/leapp/answers
    leappLog: Dir)  // /var/log/leapp

  /** What an operation does from a given state: the files afterwards, the
      actions in order, and how it ends. */
  datatype Step<T> = Step(files: Files, actions: seq<Action>, outcome: Outcome<T>)

  /** `first` ended with an exception: the exception ends the caller too. */
  function Abort<T>(first: Step<()>): Step<T>
    requires first.outcome.Raised?
  {
    Step(first.files, first.actions, Raised(first.outcome.error))
  }

  /** `first` followed by `next`, which started where `first` left the files. */
  function Then<T>(first: Step<()>, next: Step<T>): Step<T> {
    Step(next.files, first.actions + next.actions, next.outcome)
  }

  /** The host: the files as variables the operations update, and the trace. */
  class Host {
    var sshdConfig: Option<seq<string>>
    var repos: Dir
    var vzShare: Dir
    var answers: Dir
    var leappLog: Dir
    var trace: seq<Action>

    function State(): Files
      reads this
    {
      Files(sshdConfig, repos, vzShare, answers, leappLog)
    }

    constructor (f: Files)
      ensures State() == f && trace == []
    {
      sshdConfig, repos, vzShare, answers, leappLog := f.sshdConfig, f.repos, f.vzShare, f.answers, f.leappLog;
      trace := [];
    }

    /** Record one action: a command run or a line printed. */
    method Do(a: Action)
      modifies this
      ensures State() == old(State()) && trace == old(trace) + [a]
    {
      trace := trace + [a];
    }
  }

  /** Traces compose: what a caller did after what a callee did. */
  lemma AppendAssoc<T>(a: seq<T>, b: seq<T>, c: seq<T>)
    ensures a + (b + c) == a + b + c
  {
  }

  /** A host operation did exactly what step `s` describes, its trace
      continuing from `t0`. */
  ghost predicate Did<T>(h: Host, t0: seq<Action>, s: Step<T>, o: Outcome<T>)
    reads h
  {
    h.State() == s.files && h.trace == t0 + s.actions && o == s.outcome
  }
}
