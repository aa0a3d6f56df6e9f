/** `stop_ves`: bring every running or suspended virtual environment to a
    stop before the upgrade, going by the `prlctl list` roster. */
module Guests {
  import opened Wrappers
  import opened Text
  import opened Platform

  const ListArgv := ["prlctl", "list", "-a", "-o", "status,name"]

  function StopArgv(name: string): seq<string> {
    ["prlctl", "stop", name]
  }

  function StartArgv(name: string): seq<string> {
    ["prlctl", "start", name]
  }

  /** The lines the loop acts on (line 243). */
  predicate Selected(line: string) {
    StartsWith(line, "running") || StartsWith(line, "suspended")
  }

  /** The commands for one roster line (lines 243-252); `None` where
      `(status, name) = line.split()` raises. */
  function LineCommands(line: string): Option<seq<Action>> {
    if !Selected(line) then Some([])
    else
      var w := Words(line);
      if |w| != 2 then None
      else if w[0] == "running" then Some([Run(StopArgv(w[1]), Inherited)])
      else Some([Run(StartArgv(w[1]), Inherited), Run(StopArgv(w[1]), Inherited)])
  }

  /** The loop over the roster lines: the commands issued and the exception
      that ended it, if any. */
  function Quiesce(lines: seq<string>): (seq<Action>, Option<Error>)
    decreases |lines|
  {
    if lines == [] then ([], None)
    else
      var q := Quiesce(lines[..|lines| - 1]);
      var l := lines[|lines| - 1];
      if q.1.Some? then q
      else match LineCommands(l)
        case None => (q.0, Some(MalformedRosterLine(l)))
        case Some(c) => (q.0 + c, None)
  }

  /** What follows a successful roster query with output `out`. */
  function Roster(out: string): (seq<Action>, Option<Error>) {
    if out == [] then ([], None) else Quiesce(Split(out, '\n'))
  }

  function StopVesSpec(f: Files, p: Probes): Step<()> {
    var list := [Run(ListArgv, Captured)];
    match p.guestList
    case None => Step(f, list, Raised(CommandFailed(ListArgv)))
    case Some(out) =>
      var q := Roster(out);
      Step(f, list + q.0, if q.1.Some? then Raised(q.1.value) else Ok(()))
  }

  /** One turn of the loop on the host. */
  method QuiesceLine(h: Host, line: string) returns (ok: bool)
    modifies h
    ensures ok == LineCommands(line).Some?
    ensures h.State() == old(h.State())
    ensures h.trace == old(h.trace) + (if ok then LineCommands(line).value else [])
  {
    if !Selected(line) {
      return true;
    }
    var w := Words(line);
    if |w| != 2 {
      return false;
    }
    var status, name := w[0], w[1];
    if status == "running" {
      h.Do(Run(StopArgv(name), Inherited));
    } else {
      h.Do(Run(StartArgv(name), Inherited));
      h.Do(Run(StopArgv(name), Inherited));
    }
    return true;
  }

  method QuiesceAll(h: Host, lines: seq<string>) returns (failure: Option<Error>)
    modifies h
    ensures h.State() == old(h.State())
    ensures h.trace == old(h.trace) + Quiesce(lines).0 && failure == Quiesce(lines).1
  {
    ghost var t0 := h.trace;
    var i := 0;
    while i < |lines|
      invariant 0 <= i <= |lines|
      invariant Quiesce(lines[..i]).1.None?
      invariant h.State() == old(h.State()) && h.trace == t0 + Quiesce(lines[..i]).0
    {
      QuiesceStep(lines, i);
      ghost var done := Quiesce(lines[..i]).0;
      var ok := QuiesceLine(h, lines[i]);
      if !ok {
        QuiesceStops(lines, i + 1);
        return Some(MalformedRosterLine(lines[i]));
      }
      AppendAssoc(t0, done, LineCommands(lines[i]).value);
      i := i + 1;
    }
    assert lines[..|lines|] == lines;
    return None;
  }

  /** One more line after a prefix that raised nothing. */
  lemma QuiesceStep(lines: seq<string>, i: nat)
    requires i < |lines| && Quiesce(lines[..i]).1.None?
    ensures var q := Quiesce(lines[..i]);
      Quiesce(lines[..i + 1]) ==
        match LineCommands(lines[i])
        case None => (q.0, Some(MalformedRosterLine(lines[i])))
        case Some(c) => (q.0 + c, None)
  {
    assert lines[..i + 1][..i] == lines[..i] && lines[..i + 1][i] == lines[i];
  }

  method StopVes(h: Host, p: Probes) returns (o: Outcome<()>)
    modifies h
    ensures Did(h, old(h.trace), StopVesSpec(old(h.State()), p), o)
  {
    h.Do(Run(ListArgv, Captured));
    if p.guestList.None? {
      return Raised(CommandFailed(ListArgv));
    }
    var failure := QuiesceRoster(h, p.guestList.value);
    if failure.Some? {
      return Raised(failure.value);
    }
    return Ok(());
  }

  method QuiesceRoster(h: Host, out: string) returns (failure: Option<Error>)
    modifies h
    ensures h.State() == old(h.State())
    ensures h.trace == old(h.trace) + Roster(out).0 && failure == Roster(out).1
  {
    if out == [] {
      return None;
    }
    failure := QuiesceAll(h, Split(out, '\n'));
  }

  // ---- properties ----

  lemma {:induction false} QuiesceStops(lines: seq<string>, i: nat)
    requires i <= |lines| && Quiesce(lines[..i]).1.Some?
    ensures Quiesce(lines) == Quiesce(lines[..i])
    decreases |lines|
  {
    if i < |lines| {
      var init := lines[..|lines| - 1];
      assert init[..i] == lines[..i];
      QuiesceStops(init, i);
    } else {
      assert lines[..i] == lines;
    }
  }

  /** The loop raises exactly when some selected line does not split into
      two words, and then at the first such line. */
  lemma {:induction false} QuiesceFailsOnMalformed(lines: seq<string>)
    ensures Quiesce(lines).1.Some? <==> exists j | 0 <= j < |lines| :: LineCommands(lines[j]).None?
    ensures Quiesce(lines).1.Some? ==> exists j | 0 <= j < |lines| ::
      && Quiesce(lines).1.value == MalformedRosterLine(lines[j])
      && Selected(lines[j]) && |Words(lines[j])| != 2
      && forall k | 0 <= k < j :: LineCommands(lines[k]).Some?
    decreases |lines|
  {
    if lines != [] {
      var init := lines[..|lines| - 1];
      QuiesceFailsOnMalformed(init);
      assert forall j | 0 <= j < |init| :: init[j] == lines[j];
    }
  }

  /** A roster entry as `prlctl list -o status,name` prints it. */
  datatype Guest = Guest(status: string, name: string)

  predicate WellFormed(g: Guest) {
    g.status != [] && NoSpace(g.status) && g.name != [] && NoSpace(g.name)
  }

  function GuestLine(g: Guest): string {
    g.status + [' '] + g.name
  }

  /** What the source intends for one guest: nothing unless it is running or
      suspended; one stop when its status is exactly `running`; otherwise a
      start, then a stop. */
  function GuestCommands(g: Guest): seq<Action> {
    if !StartsWith(g.status, "running") && !StartsWith(g.status, "suspended") then []
    else if g.status == "running" then [Run(StopArgv(g.name), Inherited)]
    else [Run(StartArgv(g.name), Inherited), Run(StopArgv(g.name), Inherited)]
  }

  function AllCommands(gs: seq<Guest>): seq<Action>
    decreases |gs|
  {
    if gs == [] then [] else AllCommands(gs[..|gs| - 1]) + GuestCommands(gs[|gs| - 1])
  }

  function Lines(gs: seq<Guest>): seq<string> {
    seq(|gs|, i requires 0 <= i < |gs| => GuestLine(gs[i]))
  }

  lemma GuestLineCommands(g: Guest)
    requires WellFormed(g)
    ensures LineCommands(GuestLine(g)) == Some(GuestCommands(g))
  {
    var l := GuestLine(g);
    WordsOfBlankPair(g.status, g.name);
    AppendAssoc(g.status, [' '], g.name);
    PrefixOfLine(g.status, g.name, "running");
    PrefixOfLine(g.status, g.name, "suspended");
  }

  /** A word without blanks opens `a b` exactly when it opens `a`. */
  lemma PrefixOfLine(a: string, b: string, w: string)
    requires NoSpace(a) && NoSpace(w)
    ensures StartsWith(a + [' '] + b, w) <==> StartsWith(a, w)
  {
    var l := a + [' '] + b;
    if StartsWith(a, w) {
      assert l[..|w|] == a[..|w|];
    }
    if |a| < |w| <= |l| {
      assert l[..|w|][|a|] == ' ' && !IsSpace(w[|a|]);
      assert l[..|w|] != w;
    }
    if StartsWith(l, w) && |w| <= |a| {
      assert a[..|w|] == l[..|w|];
    }
  }

  lemma {:induction false} QuiesceGuests(gs: seq<Guest>)
    requires forall i | 0 <= i < |gs| :: WellFormed(gs[i])
    ensures Quiesce(Lines(gs)) == (AllCommands(gs), None)
    decreases |gs|
  {
    if gs != [] {
      var init := gs[..|gs| - 1];
      QuiesceGuests(init);
      assert Lines(gs)[..|gs| - 1] == Lines(init);
      GuestLineCommands(gs[|gs| - 1]);
    }
  }

  lemma NoNewline(s: string)
    requires NoSpace(s)
    ensures '\n' !in s
  {
    assert IsSpace('\n');
  }

  /** On a roster of well-formed `status name` lines, `stop_ves` issues
      exactly the intended commands, guest by guest, in roster order. */
  lemma StopVesOnRoster(f: Files, p: Probes, gs: seq<Guest>)
    requires gs != [] && forall i | 0 <= i < |gs| :: WellFormed(gs[i])
    requires p.guestList == Some(Join(Lines(gs), '\n'))
    ensures StopVesSpec(f, p) == Step(f, [Run(ListArgv, Captured)] + AllCommands(gs), Ok(()))
  {
    RosterOfGuests(gs);
  }

  /** The roster as `prlctl list` prints it: one line per guest, each ended
      by a line break. The empty piece after the last break issues nothing. */
  lemma StopVesOnListing(f: Files, p: Probes, gs: seq<Guest>)
    requires gs != [] && forall i | 0 <= i < |gs| :: WellFormed(gs[i])
    requires p.guestList == Some(Join(Lines(gs), '\n') + "\n")
    ensures StopVesSpec(f, p) == Step(f, [Run(ListArgv, Captured)] + AllCommands(gs), Ok(()))
  {
    RosterOfListing(gs);
  }

  /** The same roster under a column header: the header line is neither
      `running` nor `suspended`, so it issues nothing. */
  lemma StopVesOnHeadedListing(f: Files, p: Probes, gs: seq<Guest>, header: string)
    requires gs != [] && forall i | 0 <= i < |gs| :: WellFormed(gs[i])
    requires '\n' !in header && !Selected(header)
    requires p.guestList == Some(header + "\n" + Join(Lines(gs), '\n') + "\n")
    ensures StopVesSpec(f, p) == Step(f, [Run(ListArgv, Captured)] + AllCommands(gs), Ok(()))
  {
    RosterOfHeadedListing(gs, header);
  }

  lemma RosterOfListing(gs: seq<Guest>)
    requires gs != [] && forall i | 0 <= i < |gs| :: WellFormed(gs[i])
    ensures Roster(Join(Lines(gs), '\n') + "\n") == (AllCommands(gs), None)
  {
    var ls := Lines(gs);
    LinesHaveNoBreak(gs);
    SplitListing(ls);
    QuiesceGuests(gs);
    QuiesceSkipsLast(ls, "");
  }

  lemma RosterOfHeadedListing(gs: seq<Guest>, header: string)
    requires gs != [] && forall i | 0 <= i < |gs| :: WellFormed(gs[i])
    requires '\n' !in header && !Selected(header)
    ensures Roster(header + "\n" + Join(Lines(gs), '\n') + "\n") == (AllCommands(gs), None)
  {
    var ls := Lines(gs);
    var out := header + "\n" + Join(ls, '\n') + "\n";
    assert out != [] by {
      assert out[|out| - 1] == '\n';
    }
    LinesHaveNoBreak(gs);
    SplitHeadedListing(header, ls);
    QuiesceHeadedListing(gs, header);
  }

  lemma QuiesceHeadedListing(gs: seq<Guest>, header: string)
    requires forall i | 0 <= i < |gs| :: WellFormed(gs[i])
    requires !Selected(header)
    ensures Quiesce([header] + (Lines(gs) + [""])) == (AllCommands(gs), None)
  {
    QuiesceSkipsFirst(header, Lines(gs) + [""]);
    QuiesceSkipsLast(Lines(gs), "");
    QuiesceGuests(gs);
  }

  lemma SplitListing(ls: seq<string>)
    requires ls != [] && forall i | 0 <= i < |ls| :: '\n' !in ls[i]
    ensures Split(Join(ls, '\n') + "\n", '\n') == ls + [""]
  {
    JoinEmptyLast(ls, '\n');
    var parts := ls + [""];
    assert forall i | 0 <= i < |parts| :: '\n' !in parts[i] by {
      forall i | 0 <= i < |parts| ensures '\n' !in parts[i] {
        if i < |ls| {
          assert parts[i] == ls[i];
        }
      }
    }
    SplitJoin(parts, '\n');
  }

  lemma SplitHeadedListing(header: string, ls: seq<string>)
    requires ls != [] && '\n' !in header
    requires forall i | 0 <= i < |ls| :: '\n' !in ls[i]
    ensures Split(header + "\n" + Join(ls, '\n') + "\n", '\n') == [header] + (ls + [""])
  {
    JoinEmptyLast(ls, '\n');
    JoinCons(header, ls + [""], '\n');
    AppendAssoc(header + "\n", Join(ls, '\n'), "\n");
    var parts := [header] + (ls + [""]);
    assert forall i | 0 <= i < |parts| :: '\n' !in parts[i] by {
      forall i | 0 <= i < |parts| ensures '\n' !in parts[i] {
        if 0 < i <= |ls| {
          assert parts[i] == ls[i - 1];
        }
      }
    }
    SplitJoin(parts, '\n');
  }

  lemma LinesHaveNoBreak(gs: seq<Guest>)
    requires forall i | 0 <= i < |gs| :: WellFormed(gs[i])
    ensures forall i | 0 <= i < |Lines(gs)| :: '\n' !in Lines(gs)[i]
  {
    forall i | 0 <= i < |gs| ensures '\n' !in Lines(gs)[i] {
      NoNewline(gs[i].status);
      NoNewline(gs[i].name);
    }
  }

  /** A last line that issues nothing changes nothing. */
  lemma QuiesceSkipsLast(lines: seq<string>, l: string)
    requires LineCommands(l) == Some([])
    ensures Quiesce(lines + [l]) == Quiesce(lines)
  {
    assert (lines + [l])[..|lines|] == lines;
    assert Quiesce(lines).0 + [] == Quiesce(lines).0;
  }

  /** A first line that issues nothing changes nothing. */
  lemma {:induction false} QuiesceSkipsFirst(l: string, lines: seq<string>)
    requires LineCommands(l) == Some([])
    ensures Quiesce([l] + lines) == Quiesce(lines)
    decreases |lines|
  {
    if lines == [] {
      QuiesceSkipsLast([], l);
      assert [l] + lines == [] + [l];
    } else {
      var init := lines[..|lines| - 1];
      assert ([l] + lines)[..|lines|] == [l] + init;
      QuiesceSkipsFirst(l, init);
    }
  }

  lemma RosterOfGuests(gs: seq<Guest>)
    requires gs != [] && forall i | 0 <= i < |gs| :: WellFormed(gs[i])
    ensures Roster(Join(Lines(gs), '\n')) == (AllCommands(gs), None)
  {
    var ls := Lines(gs);
    forall i | 0 <= i < |ls| ensures '\n' !in ls[i] {
      var g := gs[i];
      NoNewline(g.status);
      NoNewline(g.name);
      assert ls[i] == g.status + [' '] + g.name;
    }
    SplitJoin(ls, '\n');
    QuiesceGuests(gs);
    assert ls[0] != [];
    JoinNonEmpty(ls, '\n');
  }

  lemma JoinNonEmpty(parts: seq<string>, sep: char)
    requires |parts| >= 1 && parts[0] != []
    ensures Join(parts, sep) != []
  {
  }

  /** Nothing but the roster query for an empty roster. */
  lemma EmptyRoster(f: Files, p: Probes)
    requires p.guestList == Some([])
    ensures StopVesSpec(f, p) == Step(f, [Run(ListArgv, Captured)], Ok(()))
  {
  }

  /** Lines that start with neither word are passed over. */
  lemma IgnoresOtherLines(line: string)
    requires !StartsWith(line, "running") && !StartsWith(line, "suspended")
    ensures LineCommands(line) == Some([])
  {
  }

  /** A `running` line: exactly one stop, of that guest. */
  lemma RunningIsStopped(line: string, name: string)
    requires Words(line) == ["running", name] && StartsWith(line, "running")
    ensures LineCommands(line) == Some([Run(StopArgv(name), Inherited)])
  {
  }

  /** Any other selected line: a start, then a stop. */
  lemma OtherIsStartedThenStopped(line: string, status: string, name: string)
    requires Selected(line) && Words(line) == [status, name] && status != "running"
    ensures LineCommands(line) == Some([Run(StartArgv(name), Inherited), Run(StopArgv(name), Inherited)])
  {
  }

  /** A plain `prlctl` command, output inherited or captured. */
  predicate PrlctlOnly(s: seq<Action>) {
    forall j | 0 <= j < |s| :: s[j].Run? && s[j].argv != [] && s[j].argv[0] == "prlctl"
  }

  /** `stop_ves` runs nothing but `prlctl`, whether it succeeds or raises. */
  lemma StopVesOnlyPrlctl(f: Files, p: Probes)
    ensures PrlctlOnly(StopVesSpec(f, p).actions)
  {
    if p.guestList.Some? {
      var r := Roster(p.guestList.value).0;
      if p.guestList.value != [] {
        QuiesceOnlyPrlctl(Split(p.guestList.value, '\n'));
      }
      PrlctlOnlyAfterList(r);
    }
  }

  lemma PrlctlOnlyAfterList(r: seq<Action>)
    requires PrlctlOnly(r)
    ensures PrlctlOnly([Run(ListArgv, Captured)] + r)
  {
    var a := [Run(ListArgv, Captured)] + r;
    assert forall j | 1 <= j < |a| :: a[j] == r[j - 1];
  }

  lemma {:induction false} QuiesceOnlyPrlctl(lines: seq<string>)
    ensures PrlctlOnly(Quiesce(lines).0)
    decreases |lines|
  {
    if lines != [] {
      var init := lines[..|lines| - 1];
      QuiesceOnlyPrlctl(init);
      var q := Quiesce(init);
      var l := lines[|lines| - 1];
      if q.1.None? && LineCommands(l).Some? {
        var c := LineCommands(l).value;
        assert PrlctlOnly(c);
        assert forall j | |q.0| <= j < |q.0 + c| :: (q.0 + c)[j] == c[j - |q.0|];
      }
    }
  }
}
