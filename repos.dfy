/** `add_repos`: switch the yum repository files between the real `vz8` repo
    and the dummy one used with `--skip-vz`. */
module RepoFiles {
  import opened Platform

  const ShareDir := "/usr/share/vzupgrade/"
  const Vz8 := "vz8.repo"
  const Vz8Dummy := "vz8_dummy.repo"
  const VzLinux8 := "vzlinux8.repo"

  /** The repo file that must go. */
  function Stale(skipVz: bool): string {
    if skipVz then Vz8 else Vz8Dummy
  }

  /** The repo files that must be there, copied from the share when missing. */
  function Wanted(skipVz: bool): seq<string> {
    if skipVz then [Vz8Dummy, VzLinux8] else [Vz8, VzLinux8]
  }

  /** The copy loop (lines 70-72 and 76-78): each missing file is copied from
      the share; a file missing there too raises and ends the loop. */
  function CopyMissing(f: Files, names: seq<string>): Step<()>
    decreases |names|
  {
    if names == [] then Step(f, [], Ok(()))
    else
      var n := names[0];
      if n in f.repos then CopyMissing(f, names[1..])
      else if n !in f.vzShare then Step(f, [], Raised(MissingFile(ShareDir + n)))
      else CopyMissing(f.(repos := f.repos[n := f.vzShare[n]]), names[1..])
  }

  function AddReposSpec(f: Files, skipVz: bool): Step<()> {
    CopyMissing(f.(repos := f.repos - {Stale(skipVz)}), Wanted(skipVz))
  }

  method AddRepos(h: Host, skipVz: bool) returns (o: Outcome<()>)
    modifies h
    ensures Did(h, old(h.trace), AddReposSpec(old(h.State()), skipVz), o)
  {
    var stale := Stale(skipVz);
    if stale in h.repos {
      h.repos := h.repos - {stale};
    }
    assert h.State() == old(h.State()).(repos := old(h.repos) - {stale});
    var names := Wanted(skipVz);
    var i := 0;
    while i < |names|
      invariant 0 <= i <= |names|
      invariant h.trace == old(h.trace)
      invariant CopyMissing(h.State(), names[i..]) == AddReposSpec(old(h.State()), skipVz)
    {
      var n := names[i];
      assert names[i..][1..] == names[i + 1..];
      if n !in h.repos {
        if n !in h.vzShare {
          return Raised(MissingFile(ShareDir + n));
        }
        h.repos := h.repos[n := h.vzShare[n]];
      }
      i := i + 1;
    }
    return Ok(());
  }

  // ---- properties ----

  /** The copy loop never touches anything but the repo directory, never
      overwrites a file there, and only adds the listed files, copied from the
      share; it succeeds exactly when each listed file is found in one of the
      two places, and a failure names the first file found in neither. */
  lemma {:induction false} CopyMissingEffect(f: Files, names: seq<string>)
    ensures var s := CopyMissing(f, names);
      && s.actions == []
      && s.files == f.(repos := s.files.repos)
      && (forall n | n in f.repos :: n in s.files.repos && s.files.repos[n] == f.repos[n])
      && (forall n | n in s.files.repos && n !in f.repos :: n in names && n in f.vzShare && s.files.repos[n] == f.vzShare[n])
      && (s.outcome.Ok? <==> forall i | 0 <= i < |names| :: names[i] in f.repos || names[i] in f.vzShare)
      && (s.outcome.Ok? ==> forall i | 0 <= i < |names| :: names[i] in s.files.repos)
      && (s.outcome.Raised? ==> exists i | 0 <= i < |names| ::
            names[i] !in f.repos && names[i] !in f.vzShare && s.outcome.error == MissingFile(ShareDir + names[i]))
    decreases |names|
  {
    if names != [] {
      var n := names[0];
      var rest := names[1..];
      var f1 := if n in f.repos then f else if n !in f.vzShare then f else f.(repos := f.repos[n := f.vzShare[n]]);
      if n in f.repos || n in f.vzShare {
        CopyMissingEffect(f1, rest);
        var s := CopyMissing(f1, rest);
        assert s == CopyMissing(f, names);
        assert forall i | 1 <= i < |names| :: names[i] == rest[i - 1];
        if s.outcome.Raised? {
          var j :| 0 <= j < |rest| && rest[j] !in f1.repos && rest[j] !in f1.vzShare
            && s.outcome.error == MissingFile(ShareDir + rest[j]);
          assert names[j + 1] == rest[j];
        }
      }
    }
  }

  /** `add_repos`: the stale file is gone whatever happens, so `vz8.repo` and
      `vz8_dummy.repo` are never both there; on success both wanted files are
      there, a file that was there keeps its content, a missing one is the
      share's copy, and every other file and directory is untouched. */
  lemma AddReposEffect(f: Files, skipVz: bool)
    ensures var s := AddReposSpec(f, skipVz); var r := s.files.repos;
      && s.actions == []
      && s.files == f.(repos := r)
      && Stale(skipVz) !in r
      && !(Vz8 in r && Vz8Dummy in r)
      && (forall n | n in r && n != Stale(skipVz) && n !in Wanted(skipVz) :: n in f.repos && r[n] == f.repos[n])
      && (forall n | n in f.repos && n != Stale(skipVz) :: n in r && r[n] == f.repos[n])
      && (forall n | n in Wanted(skipVz) && n in r && n !in f.repos :: n in f.vzShare && r[n] == f.vzShare[n])
      && (s.outcome.Ok? <==> forall n | n in Wanted(skipVz) :: n in f.repos || n in f.vzShare)
      && (s.outcome.Ok? ==> forall n | n in Wanted(skipVz) :: n in r)
  {
    var f1 := f.(repos := f.repos - {Stale(skipVz)});
    CopyMissingEffect(f1, Wanted(skipVz));
  }

  lemma {:induction false} CopyNothingMissing(f: Files, names: seq<string>)
    requires forall i | 0 <= i < |names| :: names[i] in f.repos
    ensures CopyMissing(f, names) == Step(f, [], Ok(()))
    decreases |names|
  {
    if names != [] {
      CopyNothingMissing(f, names[1..]);
    }
  }

  /** A second run with the same flag changes nothing and raises nothing. */
  lemma AddReposIdempotent(f: Files, skipVz: bool)
    requires AddReposSpec(f, skipVz).outcome.Ok?
    ensures var f1 := AddReposSpec(f, skipVz).files; AddReposSpec(f1, skipVz) == Step(f1, [], Ok(()))
  {
    AddReposEffect(f, skipVz);
    var f1 := AddReposSpec(f, skipVz).files;
    assert f1.(repos := f1.repos - {Stale(skipVz)}) == f1;
    CopyNothingMissing(f1, Wanted(skipVz));
  }

  /** The copy loop reads nothing but the repo directory and the share. */
  lemma {:induction false} CopyMissingFrame(f: Files, g: Files, names: seq<string>)
    requires f.repos == g.repos && f.vzShare == g.vzShare
    ensures var s := CopyMissing(f, names);
      CopyMissing(g, names) == Step(g.(repos := s.files.repos), s.actions, s.outcome)
    decreases |names|
  {
    if names != [] {
      var n := names[0];
      if n in f.repos {
        CopyMissingFrame(f, g, names[1..]);
      } else if n in f.vzShare {
        CopyMissingFrame(f.(repos := f.repos[n := f.vzShare[n]]), g.(repos := g.repos[n := g.vzShare[n]]), names[1..]);
      }
    }
  }

  lemma AddReposFrame(f: Files, g: Files, skipVz: bool)
    requires f.repos == g.repos && f.vzShare == g.vzShare
    ensures var s := AddReposSpec(f, skipVz);
      AddReposSpec(g, skipVz) == Step(g.(repos := s.files.repos), s.actions, s.outcome)
  {
    CopyMissingFrame(f.(repos := f.repos - {Stale(skipVz)}), g.(repos := g.repos - {Stale(skipVz)}), Wanted(skipVz));
  }
}
