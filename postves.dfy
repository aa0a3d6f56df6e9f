/** The post-upgrade boot script: every virtual environment that is set to
    start automatically but is not running is logged and started. */
module PostVes {
  /** The two kinds the listing asks for (line 18). */
  datatype VeKind = Vm | Container

  /** The states the management service reports; `OtherState` stands for any
      code not named here. */
  datatype VeState =
    | Starting | Running | Suspending | Snapshotting | Resetting | Pausing | Continuing | Mounted
    | Stopped | Paused | Suspended | OtherState(code: int)

  /** The states counted as running (line 16). */
  const RunningLike: set<VeState> := {Starting, Running, Suspending, Snapshotting, Resetting, Pausing, Continuing, Mounted}

  /** What the script reads of one environment. */
  datatype Ve = Ve(uuid: string, kind: VeKind, isTemplate: bool, autoStart: bool, state: VeState)

  /** The effects of the loop: a syslog line or a start request. */
  datatype BootAction = Syslog(text: string) | Start(uuid: string)

  /** Lines 21-28: neither a template, nor without autostart, nor running. */
  predicate ShouldStart(v: Ve) {
    !v.isTemplate && v.autoStart && v.state !in RunningLike
  }

  /** The listing restricted to the kinds asked for. */
  function Listed(all: seq<Ve>, kinds: set<VeKind>): (r: seq<Ve>)
    ensures forall i | 0 <= i < |r| :: r[i].kind in kinds
    decreases |all|
  {
    if all == [] then []
    else
      var init, v := all[..|all| - 1], all[|all| - 1];
      Listed(init, kinds) + (if v.kind in kinds then [v] else [])
  }

  function Selected(ves: seq<Ve>): seq<Ve>
    decreases |ves|
  {
    if ves == [] then []
    else
      var init, v := ves[..|ves| - 1], ves[|ves| - 1];
      Selected(init) + (if ShouldStart(v) then [v] else [])
  }

  function Greeting(uuid: string): string {
    "Starting " + uuid
  }

  /** Lines 31-32 for each of `ves`, in order. */
  function Announce(ves: seq<Ve>): seq<BootAction>
    decreases |ves|
  {
    if ves == [] then []
    else Announce(ves[..|ves| - 1]) + [Syslog(Greeting(ves[|ves| - 1].uuid)), Start(ves[|ves| - 1].uuid)]
  }

  /** The loop of lines 20-32 over the listing. */
  method AutostartVes(ves: seq<Ve>) returns (actions: seq<BootAction>)
    ensures actions == Announce(Selected(ves))
  {
    actions := [];
    var i := 0;
    while i < |ves|
      invariant 0 <= i <= |ves|
      invariant actions == Announce(Selected(ves[..i]))
    {
      var ve := ves[i];
      SelectedStep(ves, i);
      if ve.isTemplate {
        i := i + 1;
        continue;
      }
      if !ve.autoStart {
        i := i + 1;
        continue;
      }
      if ve.state in RunningLike {
        i := i + 1;
        continue;
      }
      actions := actions + [Syslog(Greeting(ve.uuid))];
      actions := actions + [Start(ve.uuid)];
      i := i + 1;
    }
    assert ves[..|ves|] == ves;
  }

  /** What one more environment of the listing adds. */
  lemma SelectedStep(ves: seq<Ve>, i: nat)
    requires i < |ves|
    ensures ShouldStart(ves[i]) ==>
      Announce(Selected(ves[..i + 1])) == Announce(Selected(ves[..i])) + [Syslog(Greeting(ves[i].uuid))] + [Start(ves[i].uuid)]
    ensures !ShouldStart(ves[i]) ==> Selected(ves[..i + 1]) == Selected(ves[..i])
  {
    assert ves[..i + 1][..i] == ves[..i] && ves[..i + 1][i] == ves[i];
    var s := Selected(ves[..i]);
    if ShouldStart(ves[i]) {
      assert (s + [ves[i]])[..|s|] == s;
    } else {
      assert s + [] == s;
    }
  }

  /** The script's own run: the listing of both kinds, then the loop. */
  method Boot(all: seq<Ve>) returns (actions: seq<BootAction>)
    ensures actions == Announce(Selected(all))
  {
    ListedBothKinds(all);
    actions := AutostartVes(Listed(all, {Vm, Container}));
  }

  // ---- properties ----

  /** Asking for VMs and containers lists every environment. */
  lemma {:induction false} ListedBothKinds(all: seq<Ve>)
    ensures Listed(all, {Vm, Container}) == all
    decreases |all|
  {
    if all != [] {
      var init := all[..|all| - 1];
      ListedBothKinds(init);
      var v := all[|all| - 1];
      assert v.kind in {Vm, Container} by {
        if v.kind.Vm? { assert v.kind == Vm; } else { assert v.kind == Container; }
      }
      assert init + [v] == all;
    }
  }

  /** An environment is selected exactly when it is listed and should start;
      each is selected as often as it is listed. */
  lemma {:induction false} SelectedMembers(ves: seq<Ve>)
    ensures forall v :: v in Selected(ves) <==> v in ves && ShouldStart(v)
    ensures forall v :: multiset(Selected(ves))[v] == if ShouldStart(v) then multiset(ves)[v] else 0
    decreases |ves|
  {
    if ves != [] {
      var init, v := ves[..|ves| - 1], ves[|ves| - 1];
      SelectedMembers(init);
      assert init + [v] == ves;
    }
  }

  /** The selection keeps the listing's order: selecting from two listings
      one after the other is selecting from their concatenation. */
  lemma {:induction false} SelectedAppend(a: seq<Ve>, b: seq<Ve>)
    ensures Selected(a + b) == Selected(a) + Selected(b)
    decreases |b|
  {
    if b == [] {
      assert a + b == a;
    } else {
      var init, v := b[..|b| - 1], b[|b| - 1];
      SelectedAppend(a, init);
      assert (a + b)[..|a + b| - 1] == a + init;
    }
  }

  /** Every selected environment gets a log line, then its start, in order. */
  lemma {:induction false} AnnounceShape(ves: seq<Ve>)
    ensures |Announce(ves)| == 2 * |ves|
    ensures forall i | 0 <= i < |ves| ::
      Announce(ves)[2 * i] == Syslog(Greeting(ves[i].uuid)) && Announce(ves)[2 * i + 1] == Start(ves[i].uuid)
    decreases |ves|
  {
    if ves != [] {
      var init := ves[..|ves| - 1];
      AnnounceShape(init);
      assert forall i | 0 <= i < |init| :: init[i] == ves[i];
    }
  }

  /** A start request for `u` is issued exactly when one of `ves` has that id. */
  lemma {:induction false} AnnounceStarts(ves: seq<Ve>, u: string)
    ensures Start(u) in Announce(ves) <==> exists i | 0 <= i < |ves| :: ves[i].uuid == u
    decreases |ves|
  {
    if ves != [] {
      var init, v := ves[..|ves| - 1], ves[|ves| - 1];
      AnnounceStarts(init, u);
      assert Announce(ves) == Announce(init) + [Syslog(Greeting(v.uuid)), Start(v.uuid)];
      assert forall i | 0 <= i < |init| :: init[i] == ves[i];
    }
  }

  /** Every start request follows the log line naming it. */
  lemma AnnounceLogsFirst(ves: seq<Ve>)
    ensures forall k | 0 <= k < |Announce(ves)| && Announce(ves)[k].Start? ::
      k > 0 && Announce(ves)[k - 1] == Syslog(Greeting(Announce(ves)[k].uuid))
  {
    var a := Announce(ves);
    AnnounceShape(ves);
    forall k | 0 <= k < |a| && a[k].Start? ensures k > 0 && a[k - 1] == Syslog(Greeting(a[k].uuid)) {
      var i := k / 2;
      assert k == 2 * i || k == 2 * i + 1;
      assert a[2 * i] == Syslog(Greeting(ves[i].uuid)) && a[2 * i + 1] == Start(ves[i].uuid);
    }
  }

  /** The script starts `u` exactly when a listed environment with that id
      should start. */
  lemma StartedExactly(ves: seq<Ve>, u: string)
    ensures Start(u) in Announce(Selected(ves)) <==> exists v | v in ves :: v.uuid == u && ShouldStart(v)
  {
    var s := Selected(ves);
    AnnounceStarts(s, u);
    SelectedMembers(ves);
    if exists v | v in ves :: v.uuid == u && ShouldStart(v) {
      var v :| v in ves && v.uuid == u && ShouldStart(v);
      assert v in s;
      var i :| 0 <= i < |s| && s[i] == v;
    }
    if exists i | 0 <= i < |s| :: s[i].uuid == u {
      var i :| 0 <= i < |s| && s[i].uuid == u;
      assert s[i] in s;
    }
  }

  /** Templates, environments without autostart and running ones are never
      started; the others are. */
  lemma SkipReasons(ves: seq<Ve>, v: Ve)
    requires v in ves
    ensures v.isTemplate ==> v !in Selected(ves)
    ensures !v.autoStart ==> v !in Selected(ves)
    ensures v.state in RunningLike ==> v !in Selected(ves)
    ensures ShouldStart(v) ==> v in Selected(ves)
  {
    SelectedMembers(ves);
  }

  /** Running the script a second time, once the first run's starts have
      taken effect, starts nothing more. */
  lemma SecondBootStartsNothing(ves: seq<Ve>)
    ensures Announce(Selected(AfterBoot(ves))) == []
  {
    AfterBootRuns(ves);
  }

  /** The listing after the started environments have come up. */
  function AfterBoot(ves: seq<Ve>): (r: seq<Ve>)
    ensures |r| == |ves|
  {
    seq(|ves|, i requires 0 <= i < |ves| => if ShouldStart(ves[i]) then ves[i].(state := Running) else ves[i])
  }

  lemma AfterBootRuns(ves: seq<Ve>)
    ensures Selected(AfterBoot(ves)) == []
  {
    var b := AfterBoot(ves);
    assert Running in RunningLike;
    assert forall i | 0 <= i < |b| :: !ShouldStart(b[i]);
    SelectedMembers(b);
  }
}
