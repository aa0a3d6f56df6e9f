/** `add_answers`: put the prepared leapp answer files in place, replacing
    whatever was there. */
module AnswerFiles {
  import opened Platform

  const AnswersDir := "/etc/leapp/answers/"
  const AnswerNames := ["answerfile", "answerfile.userchoices"]

  /** The loop of lines 87-90: each target is removed, then copied from the
      answers directory; a missing source raises after the removal. */
  function ReplaceFiles(f: Files, names: seq<string>): Step<()>
    decreases |names|
  {
    if names == [] then Step(f, [], Ok(()))
    else
      var n := names[0];
      var f1 := f.(leappLog := f.leappLog - {n});
      if n !in f.answers then Step(f1, [], Raised(MissingFile(AnswersDir + n)))
      else ReplaceFiles(f1.(leappLog := f1.leappLog[n := f.answers[n]]), names[1..])
  }

  function AddAnswersSpec(f: Files): Step<()> {
    ReplaceFiles(f, AnswerNames)
  }

  method AddAnswers(h: Host) returns (o: Outcome<()>)
    modifies h
    ensures Did(h, old(h.trace), AddAnswersSpec(old(h.State())), o)
  {
    var names := AnswerNames;
    var i := 0;
    while i < |names|
      invariant 0 <= i <= |names|
      invariant h.trace == old(h.trace)
      invariant ReplaceFiles(h.State(), names[i..]) == AddAnswersSpec(old(h.State()))
    {
      var n := names[i];
      assert names[i..][1..] == names[i + 1..];
      ghost var before := h.State();
      if n in h.leappLog {
        h.leappLog := h.leappLog - {n};
      }
      assert h.State() == before.(leappLog := before.leappLog - {n});
      if n !in h.answers {
        return Raised(MissingFile(AnswersDir + n));
      }
      h.leappLog := h.leappLog[n := h.answers[n]];
      i := i + 1;
    }
    return Ok(());
  }

  // ---- properties ----

  /** Only the log directory changes and only at the listed names; it
      succeeds exactly when every source exists, and then each target equals
      its source whatever was there before. A failure names a missing source,
      and that target has been removed, not kept. */
  lemma {:induction false} ReplaceFilesEffect(f: Files, names: seq<string>)
    ensures var s := ReplaceFiles(f, names); var l := s.files.leappLog;
      && s.actions == []
      && s.files == f.(leappLog := l)
      && (forall n | n !in names :: (n in l <==> n in f.leappLog) && (n in l ==> l[n] == f.leappLog[n]))
      && (s.outcome.Ok? <==> forall i | 0 <= i < |names| :: names[i] in f.answers)
      && (s.outcome.Ok? ==> forall i | 0 <= i < |names| :: names[i] in l && l[names[i]] == f.answers[names[i]])
      && (s.outcome.Raised? ==> exists i | 0 <= i < |names| ::
            names[i] !in f.answers && names[i] !in l && s.outcome.error == MissingFile(AnswersDir + names[i]))
    decreases |names|
  {
    if names != [] {
      var n := names[0];
      var rest := names[1..];
      assert forall i | 1 <= i < |names| :: names[i] == rest[i - 1];
      if n in f.answers {
        var f1 := f.(leappLog := (f.leappLog - {n})[n := f.answers[n]]);
        ReplaceFilesEffect(f1, rest);
        var s := ReplaceFiles(f1, rest);
        assert s == ReplaceFiles(f, names);
        if s.outcome.Raised? {
          var j :| 0 <= j < |rest| && rest[j] !in f1.answers && rest[j] !in s.files.leappLog
            && s.outcome.error == MissingFile(AnswersDir + rest[j]);
          assert names[j + 1] == rest[j];
        }
      }
    }
  }

  /** `add_answers`: on success both answer files in the log directory are
      the prepared copies, and nothing else changes. */
  lemma AddAnswersEffect(f: Files)
    ensures var s := AddAnswersSpec(f); var l := s.files.leappLog;
      && s.actions == []
      && s.files == f.(leappLog := l)
      && (forall n | n !in AnswerNames :: (n in l <==> n in f.leappLog) && (n in l ==> l[n] == f.leappLog[n]))
      && (s.outcome.Ok? <==> forall n | n in AnswerNames :: n in f.answers)
      && (s.outcome.Ok? ==> forall n | n in AnswerNames :: n in l && l[n] == f.answers[n])
      && (s.outcome.Raised? ==> exists n | n in AnswerNames :: n !in f.answers && n !in l)
  {
    ReplaceFilesEffect(f, AnswerNames);
  }

  /** The loop reads nothing but the answers and the log directory. */
  lemma {:induction false} ReplaceFilesFrame(f: Files, g: Files, names: seq<string>)
    requires f.answers == g.answers && f.leappLog == g.leappLog
    ensures var s := ReplaceFiles(f, names);
      ReplaceFiles(g, names) == Step(g.(leappLog := s.files.leappLog), s.actions, s.outcome)
    decreases |names|
  {
    if names != [] {
      var n := names[0];
      var f1 := f.(leappLog := f.leappLog - {n});
      var g1 := g.(leappLog := g.leappLog - {n});
      if n in f.answers {
        ReplaceFilesFrame(f1.(leappLog := f1.leappLog[n := f.answers[n]]), g1.(leappLog := g1.leappLog[n := g.answers[n]]), names[1..]);
      }
    }
  }

  lemma AddAnswersFrame(f: Files, g: Files)
    requires f.answers == g.answers && f.leappLog == g.leappLog
    ensures var s := AddAnswersSpec(f);
      AddAnswersSpec(g) == Step(g.(leappLog := s.files.leappLog), s.actions, s.outcome)
  {
    ReplaceFilesFrame(f, g, AnswerNames);
  }

  /** A second run, from what a successful first run left, changes nothing. */
  lemma AddAnswersIdempotent(f: Files)
    requires AddAnswersSpec(f).outcome.Ok?
    ensures var f1 := AddAnswersSpec(f).files; AddAnswersSpec(f1) == Step(f1, [], Ok(()))
  {
    var f1 := AddAnswersSpec(f).files;
    AddAnswersEffect(f);
    AddAnswersEffect(f1);
    var l1, l2 := f1.leappLog, AddAnswersSpec(f1).files.leappLog;
    assert forall n | n in AnswerNames :: n in l1 && n in l2 && l2[n] == l1[n];
    assert l2 == l1;
  }
}
