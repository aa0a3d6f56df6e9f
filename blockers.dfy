/** `check_templates` and `check_blockers`: the checks that stop an upgrade
    before leapp runs. */
module Blockers {
  import opened Wrappers
  import opened Seqs
  import opened Text
  import opened Grouping
  import opened Platform

  /** The OS templates the new version still supports (lines 131-151). */
  const ValidTemplates: seq<string> := [
    "centos-7-x86_64", "centos-8-x86_64",
    "debian-10.0-x86_64", "debian-9.0-x86_64", "debian-8.0-x86_64", "debian-7.0-x86_64",
    "ubuntu-18.04-x86_64", "ubuntu-18.10-x86_64", "ubuntu-19.04-x86_64", "ubuntu-19.10-x86_64",
    "ubuntu-20.04-x86_64", "ubuntu-20.10-x86_64", "ubuntu-21.04-x86_64", "ubuntu-21.10-x86_64",
    "sles-11-x86_64", "sles-12-x86_64", "sles-15-x86_64",
    "vzlinux-7-x86_64", "vzlinux-8-x86_64"]

  const VzlistArgv := ["vzlist", "-o", "ctid", "-a", "-H"]
  const YumArgv := ["yum", "check-update"]
  const UnsupportedMsg := "Containers found that use templates not supported by VHS 8"
  const UpdatesMsg := "INPLACERISK: EXTREME: You have updates available! Please install all updates first"
  const NoBlockersMsg := "No upgrade blockers found!"
  const BlockersMsg := "Critical blockers found, please fix them before trying to upgrade"

  function VzpkgArgv(ct: string): seq<string> {
    ["vzpkg", "list", ct, "--os"]
  }

  /** `tmpl.split()[0]`; `None` where the index raises, which is exactly
      when the answer is all whitespace. */
  function TemplateName(answer: string): (r: Option<string>)
    ensures r.Some? ==> r.value != [] && NoSpace(r.value)
    ensures r.None? <==> AllSpace(answer)
  {
    var w := Words(answer);
    WordsAreWords(answer);
    TrimLeftDropsSpace(answer);
    if w == [] then None else Some(w[0])
  }

  /** The template name is the first whitespace-delimited word of the
      answer, whatever whitespace leads it and whatever follows it. */
  lemma TemplateNameFirstWord(lead: string, w: string, rest: string)
    requires AllSpace(lead) && w != [] && NoSpace(w)
    requires rest == [] || IsSpace(rest[0])
    ensures TemplateName(lead + w + rest) == Some(w)
  {
    TrimLeftPastSpace(lead, w + rest);
    assert lead + w + rest == lead + (w + rest);
    WordEndOfWord(w, rest);
    assert (w + rest)[..|w|] == w;
  }

  /** Where the loop over the container list has got to: the commands run,
      the dictionary so far, and the exception that ended it, if any. */
  datatype Scan = Scan(actions: seq<Action>, invalid: seq<Bucket<string, string>>, failure: Option<Error>)

  /** One turn of the loop of lines 157-167: a blank line is skipped, any
      other is a container whose template is looked up. */
  function Next(sc: Scan, line: string, answers: map<string, string>): Scan {
    var ct := Strip(line);
    if sc.failure.Some? || ct == [] then sc
    else
      var run := sc.actions + [Run(VzpkgArgv(ct), Captured)];
      if ct !in answers then Scan(run, sc.invalid, Some(CommandFailed(VzpkgArgv(ct))))
      else match TemplateName(answers[ct])
        case None => Scan(run, sc.invalid, Some(NoTemplateName(ct)))
        case Some(t) => Scan(run, if t in ValidTemplates then sc.invalid else Add(sc.invalid, t, ct), None)
  }

  /** The whole loop over the container list. */
  function ScanRoster(lines: seq<string>, answers: map<string, string>): Scan
    decreases |lines|
  {
    if lines == [] then Scan([], [], None)
    else Next(ScanRoster(lines[..|lines| - 1], answers), lines[|lines| - 1], answers)
  }

  /** `check_templates()` from the given files and command answers. */
  function CheckTemplatesSpec(f: Files, p: Probes): Step<int> {
    var list := [Run(VzlistArgv, Captured)];
    match p.containerList
    case None => Step(f, list, Raised(CommandFailed(VzlistArgv)))
    case Some(out) =>
      if out == [] then Step(f, list, Ok(0))
      else
        var sc := ScanRoster(Split(out, '\n'), p.osTemplate);
        var c := Conclude(sc);
        Step(f, list + sc.actions + c.0, c.1)
  }

  /** Lines 169-174, after the loop (or the exception that ended it). */
  function Conclude(sc: Scan): (seq<Action>, Outcome<int>) {
    if sc.failure.Some? then ([], Raised(sc.failure.value))
    else if sc.invalid != [] then ([Say(UnsupportedMsg), ShowTemplates(sc.invalid)], Ok(1))
    else ([], Ok(0))
  }

  /** The verdict of lines 191-196. */
  function Verdict(ret: int): (Action, int) {
    if ret == 0 then (Say(NoBlockersMsg), 0) else (Say(BlockersMsg), 1)
  }

  /** Lines 184-186: run yum, warn when it reports updates. */
  function YumActions(status: int): seq<Action> {
    [Run(YumArgv, Discarded)] + (if status > 0 then [Say(UpdatesMsg)] else [])
  }

  /** `check_blockers()`: yum's raw exit status plus, unless `--skip-vz`, the
      template check's result. */
  function CheckBlockersSpec(f: Files, p: Probes, skipVz: bool): Step<int> {
    var yum := YumActions(p.yumStatus);
    if skipVz then
      var v := Verdict(p.yumStatus);
      Step(f, yum + [v.0], Ok(v.1))
    else
      var t := CheckTemplatesSpec(f, p);
      match t.outcome
      case Raised(e) => Step(t.files, yum + t.actions, Raised(e))
      case Ok(r) =>
        var v := Verdict(p.yumStatus + r);
        Step(t.files, yum + t.actions + [v.0], Ok(v.1))
  }

  /** One turn of the loop on the host. */
  method ScanLine(h: Host, ghost t0: seq<Action>, sc: Scan, line: string, answers: map<string, string>) returns (sc': Scan)
    requires sc.failure.None? && h.trace == t0 + sc.actions
    modifies h
    ensures sc' == Next(sc, line, answers)
    ensures h.State() == old(h.State()) && h.trace == t0 + sc'.actions
  {
    var ct := Strip(line);
    if ct == [] {
      return sc;
    }
    var argv := VzpkgArgv(ct);
    h.Do(Run(argv, Captured));
    var run := sc.actions + [Run(argv, Captured)];
    if ct !in answers {
      return Scan(run, sc.invalid, Some(CommandFailed(argv)));
    }
    var words := Words(answers[ct]);
    if words == [] {
      return Scan(run, sc.invalid, Some(NoTemplateName(ct)));
    }
    var tmpl := words[0];
    if tmpl in ValidTemplates {
      return Scan(run, sc.invalid, None);
    }
    return Scan(run, Add(sc.invalid, tmpl, ct), None);
  }

  /** The loop of lines 157-167 on the host. */
  method ScanContainers(h: Host, lines: seq<string>, answers: map<string, string>) returns (sc: Scan)
    modifies h
    ensures h.State() == old(h.State()) && h.trace == old(h.trace) + sc.actions
    ensures sc == ScanRoster(lines, answers)
  {
    sc := Scan([], [], None);
    var i := 0;
    while i < |lines|
      invariant 0 <= i <= |lines|
      invariant sc == ScanRoster(lines[..i], answers) && sc.failure.None?
      invariant h.State() == old(h.State()) && h.trace == old(h.trace) + sc.actions
    {
      ScanStep(lines, answers, i);
      sc := ScanLine(h, old(h.trace), sc, lines[i], answers);
      if sc.failure.Some? {
        ScanStops(lines, answers, i + 1);
        return;
      }
      i := i + 1;
    }
    assert lines[..|lines|] == lines;
  }

  method CheckTemplates(h: Host, p: Probes) returns (o: Outcome<int>)
    modifies h
    ensures Did(h, old(h.trace), CheckTemplatesSpec(old(h.State()), p), o)
  {
    h.Do(Run(VzlistArgv, Captured));
    if p.containerList.None? {
      return Raised(CommandFailed(VzlistArgv));
    }
    var out := p.containerList.value;
    if out == [] {
      return Ok(0);
    }
    var sc := ScanContainers(h, Split(out, '\n'), p.osTemplate);
    o := ReportTemplates(h, sc);
    ghost var list := [Run(VzlistArgv, Captured)];
    AppendAssoc(old(h.trace), list, sc.actions);
    AppendAssoc(old(h.trace), list + sc.actions, Conclude(sc).0);
  }

  lemma ScanStep(lines: seq<string>, answers: map<string, string>, i: nat)
    requires i < |lines|
    ensures ScanRoster(lines[..i + 1], answers) == Next(ScanRoster(lines[..i], answers), lines[i], answers)
  {
    assert lines[..i + 1][..i] == lines[..i] && lines[..i + 1][i] == lines[i];
  }

  method ReportTemplates(h: Host, sc: Scan) returns (o: Outcome<int>)
    modifies h
    ensures h.State() == old(h.State()) && h.trace == old(h.trace) + Conclude(sc).0 && o == Conclude(sc).1
  {
    if sc.failure.Some? {
      return Raised(sc.failure.value);
    }
    if sc.invalid != [] {
      h.Do(Say(UnsupportedMsg));
      h.Do(ShowTemplates(sc.invalid));
      return Ok(1);
    }
    return Ok(0);
  }

  method ReportUpdates(h: Host, status: int)
    modifies h
    ensures h.State() == old(h.State()) && h.trace == old(h.trace) + YumActions(status)
  {
    h.Do(Run(YumArgv, Discarded));
    if status > 0 {
      h.Do(Say(UpdatesMsg));
    }
  }

  method ReportVerdict(h: Host, ret: int) returns (r: int)
    modifies h
    ensures h.State() == old(h.State()) && h.trace == old(h.trace) + [Verdict(ret).0] && r == Verdict(ret).1
  {
    if ret == 0 {
      h.Do(Say(NoBlockersMsg));
      return 0;
    }
    h.Do(Say(BlockersMsg));
    return 1;
  }

  method CheckBlockers(h: Host, p: Probes, skipVz: bool) returns (o: Outcome<int>)
    modifies h
    ensures Did(h, old(h.trace), CheckBlockersSpec(old(h.State()), p, skipVz), o)
  {
    ReportUpdates(h, p.yumStatus);
    ghost var yum := YumActions(p.yumStatus);
    ghost var tt := CheckTemplatesSpec(old(h.State()), p).actions;
    var ret := p.yumStatus;
    if !skipVz {
      var t := CheckTemplates(h, p);
      AppendAssoc(old(h.trace), yum, tt);
      if t.Raised? {
        return Raised(t.error);
      }
      ret := ret + t.value;
    }
    var r := ReportVerdict(h, ret);
    if !skipVz {
      AppendAssoc(old(h.trace), yum + tt, [Verdict(ret).0]);
    } else {
      AppendAssoc(old(h.trace), yum, [Verdict(ret).0]);
    }
    return Ok(r);
  }

  // ---- properties ----

  /** Once the loop has raised, later lines are never looked at. */
  lemma {:induction false} ScanStops(lines: seq<string>, answers: map<string, string>, i: nat)
    requires i <= |lines| && ScanRoster(lines[..i], answers).failure.Some?
    ensures ScanRoster(lines, answers) == ScanRoster(lines[..i], answers)
    decreases |lines|
  {
    if i < |lines| {
      var init := lines[..|lines| - 1];
      assert init[..i] == lines[..i];
      ScanStops(init, answers, i);
    } else {
      assert lines[..i] == lines;
    }
  }

  /** The (template, container) pairs of the container list whose template is
      not supported, in list order: the reference for what the dictionary holds. */
  function Unsupported(lines: seq<string>, answers: map<string, string>): seq<(string, string)>
    decreases |lines|
  {
    if lines == [] then []
    else
      var ct := Strip(lines[|lines| - 1]);
      Unsupported(lines[..|lines| - 1], answers)
      + (if ct != [] && ct in answers && TemplateName(answers[ct]).Some?
            && TemplateName(answers[ct]).value !in ValidTemplates
         then [(TemplateName(answers[ct]).value, ct)] else [])
  }

  /** When the loop finishes, the dictionary groups the unsupported pairs. */
  lemma {:induction false} ScanGroupsUnsupported(lines: seq<string>, answers: map<string, string>)
    requires ScanRoster(lines, answers).failure.None?
    ensures ScanRoster(lines, answers).invalid == GroupAll(Unsupported(lines, answers))
    decreases |lines|
  {
    if lines != [] {
      var init := lines[..|lines| - 1];
      ScanGroupsUnsupported(init, answers);
      var u := Unsupported(lines, answers);
      var ct := Strip(lines[|lines| - 1]);
      if u == Unsupported(init, answers) {
      } else {
        assert u[..|u| - 1] == Unsupported(init, answers);
        assert u[|u| - 1] == (TemplateName(answers[ct]).value, ct);
      }
    }
  }

  /** The dictionary of `check_templates`: its keys are distinct, none of
      them is a supported template, in first-seen order, and each lists
      exactly the containers using that template, in list order. */
  lemma TemplateDictionary(lines: seq<string>, answers: map<string, string>)
    requires ScanRoster(lines, answers).failure.None?
    ensures var d := ScanRoster(lines, answers).invalid; var u := Unsupported(lines, answers);
      && Distinct(Keys(d))
      && Keys(d) == Dedup(Firsts(u))
      && (forall i | 0 <= i < |d| :: d[i].key !in ValidTemplates && d[i].items == ValuesFor(u, d[i].key))
  {
    var d := ScanRoster(lines, answers).invalid;
    var u := Unsupported(lines, answers);
    ScanGroupsUnsupported(lines, answers);
    GroupAllShape(u);
    UnsupportedAreInvalid(lines, answers);
    forall i | 0 <= i < |d| ensures d[i].key !in ValidTemplates {
      assert Keys(d)[i] == d[i].key;
      var j :| 0 <= j < |Firsts(u)| && Firsts(u)[j] == d[i].key;
    }
  }

  lemma {:induction false} UnsupportedAreInvalid(lines: seq<string>, answers: map<string, string>)
    ensures forall j | 0 <= j < |Unsupported(lines, answers)| ::
      Unsupported(lines, answers)[j].0 !in ValidTemplates && Unsupported(lines, answers)[j].1 != []
    decreases |lines|
  {
    if lines != [] {
      UnsupportedAreInvalid(lines[..|lines| - 1], answers);
    }
  }

  /** A container runs `vzpkg` in the list: which lines count. */
  predicate IsBlank(l: string) {
    Strip(l) == []
  }

  function NonBlank(lines: seq<string>): seq<string>
    decreases |lines|
  {
    if lines == [] then []
    else NonBlank(lines[..|lines| - 1]) + (if IsBlank(lines[|lines| - 1]) then [] else [lines[|lines| - 1]])
  }

  /** Blank lines of the container list are skipped: the loop over the list
      without them runs the same commands and builds the same dictionary. */
  lemma {:induction false} ScanIgnoresBlank(lines: seq<string>, answers: map<string, string>)
    ensures ScanRoster(NonBlank(lines), answers) == ScanRoster(lines, answers)
    decreases |lines|
  {
    if lines != [] {
      var init := lines[..|lines| - 1];
      var l := lines[|lines| - 1];
      ScanIgnoresBlank(init, answers);
      var nb := NonBlank(lines);
      if IsBlank(l) {
        assert nb == NonBlank(init);
        assert ScanRoster(lines, answers) == Next(ScanRoster(init, answers), l, answers) == ScanRoster(init, answers);
      } else {
        assert nb == NonBlank(init) + [l];
        assert nb[..|nb| - 1] == NonBlank(init);
        assert ScanRoster(nb, answers) == Next(ScanRoster(NonBlank(init), answers), l, answers);
      }
    }
  }

  /** `check_templates` returns 1 exactly when it found an unsupported
      template, and 0 for an empty container list. */
  lemma TemplatesResult(f: Files, p: Probes)
    ensures var s := CheckTemplatesSpec(f, p);
      && s.files == f
      && (p.containerList == Some([]) ==> s.outcome == Ok(0))
      && (s.outcome == Ok(1) <==>
            (&& p.containerList.Some? && p.containerList.value != []
             && ScanRoster(Split(p.containerList.value, '\n'), p.osTemplate).failure.None?
             && ScanRoster(Split(p.containerList.value, '\n'), p.osTemplate).invalid != []))
      && (s.outcome.Ok? ==> s.outcome.value == 0 || s.outcome.value == 1)
  {
  }

  /** The scan only runs `vzpkg list <ct> --os`. */
  lemma {:induction false} ScanOnlyRuns(lines: seq<string>, answers: map<string, string>)
    ensures forall j | 0 <= j < |ScanRoster(lines, answers).actions| ::
      var a := ScanRoster(lines, answers).actions[j];
      a.Run? && |a.argv| == 4 && a.argv[0] == "vzpkg"
    decreases |lines|
  {
    if lines != [] {
      ScanOnlyRuns(lines[..|lines| - 1], answers);
    }
  }

  /** `check_blockers` returns 0 exactly when yum's status plus (unless
      `--skip-vz`) the template result is 0, and 1 otherwise. */
  lemma BlockersVerdict(f: Files, p: Probes, skipVz: bool)
    ensures var s := CheckBlockersSpec(f, p, skipVz); var t := CheckTemplatesSpec(f, p);
      && s.files == f
      && (skipVz ==> s.outcome == Ok(if p.yumStatus == 0 then 0 else 1))
      && (!skipVz && t.outcome.Ok? ==> s.outcome == Ok(if p.yumStatus + t.outcome.value == 0 then 0 else 1))
      && (!skipVz && t.outcome.Raised? ==> s.outcome == Raised(t.outcome.error))
  {
    TemplatesResult(f, p);
  }

  /** Every action of `check_templates`: the container query, a `vzpkg`
      run, or the unsupported-template report. */
  lemma TemplatesActions(f: Files, p: Probes)
    ensures var t := CheckTemplatesSpec(f, p);
      && |t.actions| >= 1 && t.actions[0] == Run(VzlistArgv, Captured)
      && forall j | 1 <= j < |t.actions| ::
        || (t.actions[j].Run? && |t.actions[j].argv| == 4 && t.actions[j].argv[0] == "vzpkg")
        || t.actions[j] == Say(UnsupportedMsg) || t.actions[j].ShowTemplates?
  {
    match p.containerList
    case None =>
    case Some(out) =>
      if out != [] {
        var sc := ScanRoster(Split(out, '\n'), p.osTemplate);
        ScanOnlyRuns(Split(out, '\n'), p.osTemplate);
        var t := CheckTemplatesSpec(f, p);
        assert t.actions == [Run(VzlistArgv, Captured)] + sc.actions + Conclude(sc).0;
      }
  }

  /** The template check runs exactly without `--skip-vz`. */
  lemma BlockersQueryContainers(f: Files, p: Probes, skipVz: bool)
    ensures Run(VzlistArgv, Captured) in CheckBlockersSpec(f, p, skipVz).actions <==> !skipVz
  {
    var s := CheckBlockersSpec(f, p, skipVz);
    var yum := YumActions(p.yumStatus);
    if !skipVz {
      TemplatesActions(f, p);
      assert s.actions[|yum|] == Run(VzlistArgv, Captured);
    } else {
      assert s.actions == yum + [Verdict(p.yumStatus).0];
    }
  }

  lemma MessagesDiffer()
    ensures UpdatesMsg != UnsupportedMsg && UpdatesMsg != NoBlockersMsg && UpdatesMsg != BlockersMsg
  {
  }

  /** The updates warning is printed exactly when yum's status is positive. */
  lemma BlockersWarnUpdates(f: Files, p: Probes, skipVz: bool)
    ensures Say(UpdatesMsg) in CheckBlockersSpec(f, p, skipVz).actions <==> p.yumStatus > 0
  {
    var s := CheckBlockersSpec(f, p, skipVz);
    var yum := YumActions(p.yumStatus);
    TemplatesActions(f, p);
    MessagesDiffer();
    if p.yumStatus > 0 {
      assert s.actions[1] == Say(UpdatesMsg);
    }
    if Say(UpdatesMsg) in s.actions {
      var j :| 0 <= j < |s.actions| && s.actions[j] == Say(UpdatesMsg);
      assert j < |yum|;
    }
  }

  /** Adding the raw status lets a negative yum status (a signal) cancel a
      template blocker: the check then reports no blockers. */
  lemma NegativeStatusMasksTemplates(f: Files, p: Probes)
    requires p.yumStatus == -1 && CheckTemplatesSpec(f, p).outcome == Ok(1)
    ensures CheckBlockersSpec(f, p, false).outcome == Ok(0)
    ensures Say(NoBlockersMsg) in CheckBlockersSpec(f, p, false).actions
  {
  }

  /** An action that only looks at the host: a line printed, or one of the
      query commands the checks run. */
  predicate Inspects(a: Action) {
    a.Say? || a.ShowTemplates? || (a.Run? && a.argv != [] && a.argv[0] in {"yum", "vzlist", "vzpkg"})
  }

  /** `check_blockers` only inspects: it never starts leapp, touches a guest
      or reboots. */
  lemma BlockersOnlyInspect(f: Files, p: Probes, skipVz: bool)
    ensures forall j | 0 <= j < |CheckBlockersSpec(f, p, skipVz).actions| :: Inspects(CheckBlockersSpec(f, p, skipVz).actions[j])
  {
    if !skipVz {
      match p.containerList
      case None =>
      case Some(out) =>
        if out != [] {
          ScanOnlyRuns(Split(out, '\n'), p.osTemplate);
        }
    }
  }
}
