/** The two commands of the tool: `check` (prepare, look for blockers, run
    the leapp pre-upgrade) and `install` (the same gate, then save the host's
    configuration, stop the guests and run the leapp upgrade). */
module Upgrade {
  import opened Wrappers
  import opened Platform
  import opened SshdConfig
  import opened RepoFiles
  import opened AnswerFiles
  import opened Blockers
  import opened Guests
  import opened Leapp

  // ---- prepare_files (lines 95-98) ----

  /** `add_repos()` then `add_answers()`. */
  function ReposAndAnswersSpec(f: Files, skipVz: bool): Step<()> {
    var b := AddReposSpec(f, skipVz);
    if b.outcome.Raised? then b else Then(b, AddAnswersSpec(b.files))
  }

  /** The three preparation steps in order; an exception ends the sequence. */
  function PrepareSpec(f: Files, skipVz: bool): Step<()> {
    var a := FixSshdSpec(f);
    if a.outcome.Raised? then a else Then(a, ReposAndAnswersSpec(a.files, skipVz))
  }

  method ReposAndAnswers(h: Host, skipVz: bool) returns (o: Outcome<()>)
    modifies h
    ensures Did(h, old(h.trace), ReposAndAnswersSpec(old(h.State()), skipVz), o)
  {
    ghost var t0 := h.trace;
    ghost var b := AddReposSpec(h.State(), skipVz);
    o := AddRepos(h, skipVz);
    if o.Raised? {
      return;
    }
    ghost var c := AddAnswersSpec(b.files);
    o := AddAnswers(h);
    AppendAssoc(t0, b.actions, c.actions);
  }

  method PrepareFiles(h: Host, skipVz: bool) returns (o: Outcome<()>)
    modifies h
    ensures Did(h, old(h.trace), PrepareSpec(old(h.State()), skipVz), o)
  {
    ghost var t0 := h.trace;
    ghost var a := FixSshdSpec(h.State());
    o := FixSshdConfig(h);
    if o.Raised? {
      return;
    }
    ghost var r := ReposAndAnswersSpec(a.files, skipVz);
    o := ReposAndAnswers(h, skipVz);
    AppendAssoc(t0, a.actions, r.actions);
  }

  /** The preparation in closed form once all three steps succeed. */
  lemma PrepareSteps(f: Files, skipVz: bool, a: Step<()>, b: Step<()>, c: Step<()>)
    requires a == FixSshdSpec(f) && a.outcome.Ok?
    requires b == AddReposSpec(a.files, skipVz) && b.outcome.Ok?
    requires c == AddAnswersSpec(b.files)
    ensures PrepareSpec(f, skipVz) == Step(c.files, a.actions + (b.actions + c.actions), c.outcome)
  {
  }

  // ---- save_configs (lines 258-276) ----

  const StateDir := "/var/lib/vzupgrade"
  const RebootArgv := ["reboot"]

  /** The commands `save_configs` runs, in order; the network list is saved
      only without `--skip-vz`. */
  function SaveConfigsActions(skipVz: bool): seq<Action> {
    [ Run(["mkdir", "-p", StateDir], Inherited),
      Run(["ip", "a"], IntoFile(StateDir + "/iflist")),
      Run(["chkconfig", "--list"], IntoFile(StateDir + "/services")),
      Run(["tar", "czf", StateDir + "/etc.tar.gz", "/etc"], Inherited) ]
    + (if skipVz then [] else [Run(["prlsrvctl", "net", "list"], IntoFile(StateDir + "/net_list"))])
  }

  method SaveConfigs(h: Host, skipVz: bool)
    modifies h
    ensures h.State() == old(h.State()) && h.trace == old(h.trace) + SaveConfigsActions(skipVz)
  {
    h.Do(Run(["mkdir", "-p", StateDir], Inherited));
    h.Do(Run(["ip", "a"], IntoFile(StateDir + "/iflist")));
    h.Do(Run(["chkconfig", "--list"], IntoFile(StateDir + "/services")));
    h.Do(Run(["tar", "czf", StateDir + "/etc.tar.gz", "/etc"], Inherited));
    if !skipVz {
      h.Do(Run(["prlsrvctl", "net", "list"], IntoFile(StateDir + "/net_list")));
    }
  }

  // ---- the gate shared by check and install ----

  /** `prepare_files()` then `check_blockers()`: `Ok(true)` when leapp may
      run, `Ok(false)` when a blocker was found. */
  function GateSpec(f: Files, p: Probes, skipVz: bool): Step<bool> {
    var prep := PrepareSpec(f, skipVz);
    if prep.outcome.Raised? then Abort(prep)
    else
      var b := CheckBlockersSpec(prep.files, p, skipVz);
      Step(b.files, prep.actions + b.actions,
        if b.outcome.Raised? then Raised(b.outcome.error) else Ok(b.outcome.value == 0))
  }

  method Gate(h: Host, p: Probes, skipVz: bool) returns (o: Outcome<bool>)
    modifies h
    ensures Did(h, old(h.trace), GateSpec(old(h.State()), p, skipVz), o)
  {
    ghost var f0, t0 := h.State(), h.trace;
    ghost var sp := PrepareSpec(f0, skipVz);
    var prep := PrepareFiles(h, skipVz);
    if prep.Raised? {
      return Raised(prep.error);
    }
    ghost var sb := CheckBlockersSpec(sp.files, p, skipVz);
    var b := CheckBlockers(h, p, skipVz);
    GateSteps(f0, p, skipVz, sp, sb);
    AppendAssoc(t0, sp.actions, sb.actions);
    if b.Raised? {
      return Raised(b.error);
    }
    return Ok(b.value == 0);
  }

  lemma GateSteps(f: Files, p: Probes, skipVz: bool, sp: Step<()>, sb: Step<int>)
    requires sp == PrepareSpec(f, skipVz) && sp.outcome.Ok?
    requires sb == CheckBlockersSpec(sp.files, p, skipVz)
    ensures GateSpec(f, p, skipVz) == Step(sb.files, sp.actions + sb.actions,
      if sb.outcome.Raised? then Raised(sb.outcome.error) else Ok(sb.outcome.value == 0))
  {
  }

  /** The leapp run, with the argv and environment of lines 107-119 or
      294-305. */
  function LeappRun(v: Verb, p: Probes, o: Options): Action {
    RunWithEnv(LeappArgv(v, o), LeappEnv(p.environ, o.skipVz))
  }

  // ---- check (lines 103-123) ----

  /** `check()`: `Some(1)` for a blocker or a failing pre-upgrade, Python's
      `None` otherwise. */
  function CheckSpec(f: Files, p: Probes, o: Options): Step<Option<int>> {
    var g := GateSpec(f, p, o.skipVz);
    match g.outcome
    case Raised(e) => Step(g.files, g.actions, Raised(e))
    case Ok(go) =>
      if !go then Step(g.files, g.actions, Ok(Some(1)))
      else Step(g.files, g.actions + [LeappRun(Preupgrade, p, o)], Ok(if p.leappStatus != 0 then Some(1) else None))
  }

  method Check(h: Host, p: Probes, o: Options) returns (r: Outcome<Option<int>>)
    modifies h
    ensures Did(h, old(h.trace), CheckSpec(old(h.State()), p, o), r)
  {
    ghost var t0 := h.trace;
    ghost var g := GateSpec(h.State(), p, o.skipVz);
    var go := Gate(h, p, o.skipVz);
    if go.Raised? {
      return Raised(go.error);
    }
    if !go.value {
      return Ok(Some(1));
    }
    var env := LeappEnv(p.environ, o.skipVz);
    var argv := BuildLeappCommand(Preupgrade, o);
    h.Do(RunWithEnv(argv, env));
    AppendAssoc(t0, g.actions, [LeappRun(Preupgrade, p, o)]);
    if p.leappStatus != 0 {
      return Ok(Some(1));
    }
    return Ok(None);
  }

  // ---- install (lines 283-314) ----

  /** `stop_ves()` unless `--skip-vz`. */
  function GuestPhaseSpec(f: Files, p: Probes, skipVz: bool): Step<()> {
    if skipVz then Step(f, [], Ok(())) else StopVesSpec(f, p)
  }

  /** The leapp upgrade, then the reboot when asked for, whatever leapp
      returned. */
  function Handover(p: Probes, o: Options): seq<Action> {
    [LeappRun(Upgrade, p, o)] + (if o.reboot then [Run(RebootArgv, Inherited)] else [])
  }

  /** After the gate let it through: save, quiesce, hand over. */
  function UpgradeSpec(f: Files, p: Probes, o: Options): Step<Option<int>> {
    var q := GuestPhaseSpec(f, p, o.skipVz);
    var pre := SaveConfigsActions(o.skipVz) + q.actions;
    match q.outcome
    case Raised(e) => Step(q.files, pre, Raised(e))
    case Ok(_) => Step(q.files, pre + Handover(p, o), Ok(None))
  }

  /** `install()`: `Some(1)` for a blocker, Python's `None` otherwise. */
  function InstallSpec(f: Files, p: Probes, o: Options): Step<Option<int>> {
    var g := GateSpec(f, p, o.skipVz);
    match g.outcome
    case Raised(e) => Step(g.files, g.actions, Raised(e))
    case Ok(go) =>
      if !go then Step(g.files, g.actions, Ok(Some(1)))
      else
        var u := UpgradeSpec(g.files, p, o);
        Step(u.files, g.actions + u.actions, u.outcome)
  }

  method GuestPhase(h: Host, p: Probes, skipVz: bool) returns (r: Outcome<()>)
    modifies h
    ensures Did(h, old(h.trace), GuestPhaseSpec(old(h.State()), p, skipVz), r)
  {
    if skipVz {
      return Ok(());
    }
    r := StopVes(h, p);
  }

  method RunUpgrade(h: Host, p: Probes, o: Options) returns (r: Outcome<Option<int>>)
    modifies h
    ensures Did(h, old(h.trace), UpgradeSpec(old(h.State()), p, o), r)
  {
    ghost var f0, t0 := h.State(), h.trace;
    var env := LeappEnv(p.environ, o.skipVz);
    var argv := BuildLeappCommand(Upgrade, o);
    SaveConfigs(h, o.skipVz);
    ghost var q := GuestPhaseSpec(f0, p, o.skipVz);
    var qo := GuestPhase(h, p, o.skipVz);
    ghost var pre := SaveConfigsActions(o.skipVz) + q.actions;
    AppendAssoc(t0, SaveConfigsActions(o.skipVz), q.actions);
    if qo.Raised? {
      return Raised(qo.error);
    }
    h.Do(RunWithEnv(argv, env));
    if o.reboot {
      h.Do(Run(RebootArgv, Inherited));
      AppendAssoc(t0 + pre, [LeappRun(Upgrade, p, o)], [Run(RebootArgv, Inherited)]);
    }
    AppendAssoc(t0, pre, Handover(p, o));
    return Ok(None);
  }

  method Install(h: Host, p: Probes, o: Options) returns (r: Outcome<Option<int>>)
    modifies h
    ensures Did(h, old(h.trace), InstallSpec(old(h.State()), p, o), r)
  {
    ghost var f0, t0 := h.State(), h.trace;
    var go := Gate(h, p, o.skipVz);
    if go.Raised? {
      return Raised(go.error);
    }
    if !go.value {
      return Ok(Some(1));
    }
    ghost var g := GateSpec(f0, p, o.skipVz);
    ghost var u := UpgradeSpec(g.files, p, o);
    r := RunUpgrade(h, p, o);
    AppendAssoc(t0, g.actions, u.actions);
  }

  // ---- properties ----

  /** An action that hands the host over: leapp, a guest command, the
      network list or the reboot. */
  predicate Intrusive(a: Action) {
    a.RunWithEnv? || (a.Run? && a.argv != [] && a.argv[0] in {"prlctl", "prlsrvctl", "reboot"})
  }

  lemma PrepareOnlyPrints(f: Files, skipVz: bool)
    ensures forall j | 0 <= j < |PrepareSpec(f, skipVz).actions| :: PrepareSpec(f, skipVz).actions[j].Say?
  {
    FixSshdOnlyPrints(f);
    var a := FixSshdSpec(f);
    AddReposEffect(a.files, skipVz);
    AddAnswersEffect(AddReposSpec(a.files, skipVz).files);
  }

  /** Preparing an already prepared host changes no file. */
  lemma PrepareIdempotent(f: Files, skipVz: bool)
    requires PrepareSpec(f, skipVz).outcome.Ok?
    ensures var f1 := PrepareSpec(f, skipVz).files;
      PrepareSpec(f1, skipVz).files == f1 && PrepareSpec(f1, skipVz).outcome.Ok?
  {
    var a := FixSshdSpec(f);
    var b := AddReposSpec(a.files, skipVz);
    var c := AddAnswersSpec(b.files);
    PrepareSteps(f, skipVz, a, b, c);
    var f1 := c.files;
    AddReposEffect(a.files, skipVz);
    AddAnswersEffect(b.files);
    // the second run, step by step
    Idempotent(f);
    FixSshdFrame(a.files, f1);
    var a2 := FixSshdSpec(f1);
    AddReposIdempotent(a.files, skipVz);
    AddReposFrame(b.files, f1, skipVz);
    var b2 := AddReposSpec(f1, skipVz);
    AddAnswersIdempotent(b.files);
    AddAnswersFrame(f1, f1);
    assert a2.files == f1 && a2.outcome.Ok?;
    PrepareSteps(f1, skipVz, a2, b2, AddAnswersSpec(b2.files));
  }

  /** The gate never does anything intrusive. */
  lemma GateIsHarmless(f: Files, p: Probes, skipVz: bool)
    ensures forall j | 0 <= j < |GateSpec(f, p, skipVz).actions| :: !Intrusive(GateSpec(f, p, skipVz).actions[j])
  {
    PrepareOnlyPrints(f, skipVz);
    var prep := PrepareSpec(f, skipVz);
    BlockersOnlyInspect(prep.files, p, skipVz);
  }

  /** Preparation comes first, whatever follows. */
  lemma InstallStartsWithPreparation(f: Files, p: Probes, o: Options)
    ensures PrepareSpec(f, o.skipVz).actions <= GateSpec(f, p, o.skipVz).actions <= InstallSpec(f, p, o).actions
    ensures PrepareSpec(f, o.skipVz).actions <= CheckSpec(f, p, o).actions
  {
  }

  /** A blocker ends `install` after the check: no leapp run, no guest
      command, no reboot. The same holds for `check`. */
  lemma BlockerStopsInstall(f: Files, p: Probes, o: Options)
    requires GateSpec(f, p, o.skipVz).outcome == Ok(false)
    ensures var s := InstallSpec(f, p, o);
      && s.outcome == Ok(Some(1))
      && (forall j | 0 <= j < |s.actions| :: !Intrusive(s.actions[j]))
    ensures var s := CheckSpec(f, p, o);
      && s.outcome == Ok(Some(1))
      && (forall j | 0 <= j < |s.actions| :: !Intrusive(s.actions[j]))
  {
    GateIsHarmless(f, p, o.skipVz);
  }

  /** Unless the gate lets it through, whether a blocker was found or the
      preparation or the checks raised, `install` and `check` do no more
      than the gate did: no leapp run, no guest command, no reboot. They
      return 1 for a blocker and raise the gate's exception otherwise. */
  lemma NothingIntrusiveUnlessGatePasses(f: Files, p: Probes, o: Options)
    requires GateSpec(f, p, o.skipVz).outcome != Ok(true)
    ensures var g := GateSpec(f, p, o.skipVz); var s := InstallSpec(f, p, o);
      && s.actions == g.actions
      && (forall j | 0 <= j < |s.actions| :: !Intrusive(s.actions[j]))
      && (g.outcome.Raised? ==> s.outcome == Raised(g.outcome.error))
      && (g.outcome == Ok(false) ==> s.outcome == Ok(Some(1)))
    ensures var g := GateSpec(f, p, o.skipVz); var s := CheckSpec(f, p, o);
      && s.actions == g.actions
      && (forall j | 0 <= j < |s.actions| :: !Intrusive(s.actions[j]))
      && (g.outcome.Raised? ==> s.outcome == Raised(g.outcome.error))
      && (g.outcome == Ok(false) ==> s.outcome == Ok(Some(1)))
  {
    GateIsHarmless(f, p, o.skipVz);
  }

  /** The hand-over: leapp first, and the reboot last exactly when asked
      for. */
  lemma HandoverShape(p: Probes, o: Options)
    ensures Handover(p, o)[0] == LeappRun(Upgrade, p, o)
    ensures Handover(p, o)[|Handover(p, o)| - 1] == Run(RebootArgv, Inherited) <==> o.reboot
  {
  }

  /** Past the gate, `install` runs `save_configs`, then `stop_ves` unless
      `--skip-vz`, then leapp, then the reboot when asked for; the reboot is
      the last action exactly when `--reboot` is given. */
  lemma InstallPhases(f: Files, p: Probes, o: Options)
    requires GateSpec(f, p, o.skipVz).outcome == Ok(true)
    requires o.skipVz || StopVesSpec(GateSpec(f, p, o.skipVz).files, p).outcome.Ok?
    ensures var g := GateSpec(f, p, o.skipVz); var s := InstallSpec(f, p, o);
      && s.outcome == Ok(None)
      && s.actions == g.actions + SaveConfigsActions(o.skipVz)
           + (if o.skipVz then [] else StopVesSpec(g.files, p).actions)
           + Handover(p, o)
      && (s.actions[|s.actions| - 1] == Run(RebootArgv, Inherited) <==> o.reboot)
  {
    var g := GateSpec(f, p, o.skipVz);
    var q := GuestPhaseSpec(g.files, p, o.skipVz);
    var h := Handover(p, o);
    AppendAssoc(SaveConfigsActions(o.skipVz), q.actions, h);
    AppendAssoc(g.actions, SaveConfigsActions(o.skipVz) + q.actions, h);
    AppendAssoc(g.actions, SaveConfigsActions(o.skipVz), q.actions);
    HandoverShape(p, o);
  }

  /** Past the gate, when `stop_ves` raises (a failing `prlctl list`, or a
      selected line that does not split into two words), `install` has run
      the gate, `save_configs` and the guest commands issued so far, and
      then raises that exception: leapp is not run and the host is not
      rebooted. */
  lemma InstallStopsOnGuestError(f: Files, p: Probes, o: Options)
    requires GateSpec(f, p, o.skipVz).outcome == Ok(true) && !o.skipVz
    requires StopVesSpec(GateSpec(f, p, o.skipVz).files, p).outcome.Raised?
    ensures var g := GateSpec(f, p, o.skipVz); var q := StopVesSpec(g.files, p);
      var s := InstallSpec(f, p, o);
      && s.outcome == Raised(q.outcome.error)
      && s.actions == g.actions + SaveConfigsActions(false) + q.actions
      && NoHandover(s.actions)
  {
    var g := GateSpec(f, p, o.skipVz);
    var q := StopVesSpec(g.files, p);
    InstallGuestErrorStep(f, p, o);
    GateDoesNotHandOver(f, p, o.skipVz);
    StopVesOnlyPrlctl(g.files, p);
    SavedAndQuiescedDoesNotHandOver(g.actions, q.actions);
  }

  lemma GateDoesNotHandOver(f: Files, p: Probes, skipVz: bool)
    ensures NoHandover(GateSpec(f, p, skipVz).actions)
  {
    GateIsHarmless(f, p, skipVz);
  }

  lemma SavedAndQuiescedDoesNotHandOver(g: seq<Action>, q: seq<Action>)
    requires NoHandover(g) && PrlctlOnly(q)
    ensures NoHandover(g + SaveConfigsActions(false) + q)
  {
    NoHandoverAppend(g, SaveConfigsActions(false));
    NoHandoverAppend(g + SaveConfigsActions(false), q);
  }

  lemma InstallGuestErrorStep(f: Files, p: Probes, o: Options)
    requires GateSpec(f, p, o.skipVz).outcome == Ok(true) && !o.skipVz
    requires StopVesSpec(GateSpec(f, p, o.skipVz).files, p).outcome.Raised?
    ensures var g := GateSpec(f, p, o.skipVz); var q := StopVesSpec(g.files, p);
      var s := InstallSpec(f, p, o);
      && s.outcome == Raised(q.outcome.error)
      && s.actions == g.actions + SaveConfigsActions(false) + q.actions
  {
    var g := GateSpec(f, p, o.skipVz);
    AppendAssoc(g.actions, SaveConfigsActions(false), StopVesSpec(g.files, p).actions);
  }

  /** No leapp run and no reboot. */
  predicate NoHandover(s: seq<Action>) {
    forall j | 0 <= j < |s| :: !s[j].RunWithEnv? && s[j] != Run(RebootArgv, Inherited)
  }

  lemma NoHandoverAppend(a: seq<Action>, b: seq<Action>)
    requires NoHandover(a) && NoHandover(b)
    ensures NoHandover(a + b)
  {
    assert forall j | |a| <= j < |a + b| :: (a + b)[j] == b[j - |a|];
  }

  /** A command addressed to the guests or the virtual networks. */
  predicate GuestCommand(a: Action) {
    a.Run? && a.argv != [] && (a.argv[0] == "prlctl" || a.argv[0] == "prlsrvctl")
  }

  predicate LeavesGuests(s: seq<Action>) {
    forall j | 0 <= j < |s| :: !GuestCommand(s[j])
  }

  lemma LeavesGuestsAppend(a: seq<Action>, b: seq<Action>)
    requires LeavesGuests(a) && LeavesGuests(b)
    ensures LeavesGuests(a + b)
  {
    assert forall j | |a| <= j < |a + b| :: (a + b)[j] == b[j - |a|];
  }

  lemma UpgradeLeavesGuests(f: Files, p: Probes, o: Options)
    requires o.skipVz
    ensures LeavesGuests(UpgradeSpec(f, p, o).actions)
  {
    assert LeavesGuests(SaveConfigsActions(true));
    assert LeavesGuests(Handover(p, o));
    LeavesGuestsAppend(SaveConfigsActions(true), Handover(p, o));
    assert SaveConfigsActions(true) + [] == SaveConfigsActions(true);
  }

  /** With `--skip-vz` no guest or network-list command is run at all. */
  lemma SkipVzLeavesGuestsAlone(f: Files, p: Probes, o: Options)
    requires o.skipVz
    ensures LeavesGuests(InstallSpec(f, p, o).actions)
  {
    GateIsHarmless(f, p, o.skipVz);
    var g := GateSpec(f, p, o.skipVz);
    assert LeavesGuests(g.actions);
    if g.outcome == Ok(true) {
      UpgradeLeavesGuests(g.files, p, o);
      LeavesGuestsAppend(g.actions, UpgradeSpec(g.files, p, o).actions);
    }
  }

  /** What leapp returned decides nothing in `install`: the reboot follows
      a failed upgrade too. */
  lemma InstallIgnoresLeapp(f: Files, p: Probes, o: Options, status: int)
    ensures InstallSpec(f, p, o) == InstallSpec(f, p.(leappStatus := status), o)
  {
    var p' := p.(leappStatus := status);
    assert LeappRun(Upgrade, p, o) == LeappRun(Upgrade, p', o);
    assert CheckBlockersSpec(PrepareSpec(f, o.skipVz).files, p, o.skipVz)
        == CheckBlockersSpec(PrepareSpec(f, o.skipVz).files, p', o.skipVz);
    assert StopVesSpec(GateSpec(f, p, o.skipVz).files, p) == StopVesSpec(GateSpec(f, p, o.skipVz).files, p');
  }

  /** `check` past the gate runs the leapp pre-upgrade last and reports 1
      exactly when it fails. */
  lemma CheckVerdict(f: Files, p: Probes, o: Options)
    requires GateSpec(f, p, o.skipVz).outcome == Ok(true)
    ensures var s := CheckSpec(f, p, o);
      && s.actions == GateSpec(f, p, o.skipVz).actions + [LeappRun(Preupgrade, p, o)]
      && (s.outcome == Ok(Some(1)) <==> p.leappStatus != 0)
      && (s.outcome == Ok(None) <==> p.leappStatus == 0)
  {
  }
}
