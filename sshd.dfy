/** `fix_sshd_config`: make sure `/etc/ssh/sshd_config` states `PermitRootLogin`
    explicitly, because the default differs between the two major versions. */
module SshdConfig {
  import opened Wrappers
  import opened Seqs
  import opened Text
  import opened Platform

  const SshdPath := "/etc/ssh/sshd_config"
  const Key := "PermitRootLogin"
  const Directive := "PermitRootLogin yes"

  /** `l.strip().startswith("PermitRootLogin")` */
  predicate IsDirective(l: string) {
    StartsWith(Strip(l), Key)
  }

  predicate HasDirective(lines: seq<string>) {
    exists i | 0 <= i < |lines| :: IsDirective(lines[i])
  }

  /** `"PermitRootLogin" in l` */
  predicate Mentions(l: string) {
    Contains(l, Key)
  }

  predicate AnyMention(lines: seq<string>) {
    exists i | 0 <= i < |lines| :: Mentions(lines[i])
  }

  /** A line that is neither blank nor a comment. */
  predicate IsSetting(l: string) {
    var t := Strip(l);
    t != [] && !StartsWith(t, "#")
  }

  predicate AnySetting(lines: seq<string>) {
    exists i | 0 <= i < |lines| :: IsSetting(lines[i])
  }

  /** The line `print(x)` writes. */
  function Printed(x: string): string {
    x + "\n"
  }

  /** Every line stripped, as the in-place pass writes it when nothing is inserted. */
  function StripAll(lines: seq<string>): seq<string> {
    seq(|lines|, i requires 0 <= i < |lines| => Printed(Strip(lines[i])))
  }

  /** The file the in-place pass (lines 36-41) writes, one input line at a time:
      the directive goes before the first line that mentions the key, and
      every line is written stripped. */
  function Rewrite(lines: seq<string>): seq<string>
    decreases |lines|
  {
    if lines == [] then []
    else
      var init, l := lines[..|lines| - 1], lines[|lines| - 1];
      Rewrite(init)
      + (if !AnyMention(init) && Mentions(l) then [Printed(Directive)] else [])
      + [Printed(Strip(l))]
  }

  /** What the fallback pass (lines 48-53) prints to standard output: the
      directive before the first setting line, and every line as read. */
  function Echo(lines: seq<string>): seq<Action>
    decreases |lines|
  {
    if lines == [] then []
    else
      var init, l := lines[..|lines| - 1], lines[|lines| - 1];
      Echo(init)
      + (if !AnySetting(init) && IsSetting(l) then [Say(Directive)] else [])
      + [Say(l)]
  }

  /** What `fix_sshd_config` does to the files and the output. */
  function FixSshdSpec(f: Files): Step<()> {
    match f.sshdConfig
    case None => Step(f, [], Raised(MissingFile(SshdPath)))
    case Some(lines) =>
      if HasDirective(lines) then Step(f, [], Ok(()))
      else
        var out := Rewrite(lines);
        var f' := f.(sshdConfig := Some(out));
        if AnyMention(lines) then Step(f', [], Ok(())) else Step(f', Echo(out), Ok(()))
  }

  /** The first pass (lines 29-32): is there an explicit directive yet? */
  method FindDirective(lines: seq<string>) returns (found: bool)
    ensures found == HasDirective(lines)
  {
    var i := 0;
    while i < |lines|
      invariant 0 <= i <= |lines|
      invariant forall j | 0 <= j < i :: !IsDirective(lines[j])
    {
      if IsDirective(lines[i]) {
        return true;
      }
      i := i + 1;
    }
    return false;
  }

  /** The in-place pass (lines 35-41): the lines written back, and whether
      the directive was inserted. */
  method RewriteLines(lines: seq<string>) returns (out: seq<string>, modified: bool)
    ensures out == Rewrite(lines) && modified == AnyMention(lines)
  {
    modified := false;
    out := [];
    var i := 0;
    while i < |lines|
      invariant 0 <= i <= |lines|
      invariant out == Rewrite(lines[..i])
      invariant modified == AnyMention(lines[..i])
    {
      var l := lines[i];
      RewriteStep(lines, i);
      if !modified && Mentions(l) {
        out := out + [Printed(Directive)];
        modified := true;
      }
      out := out + [Printed(Strip(l))];
      i := i + 1;
    }
    assert lines[..|lines|] == lines;
  }

  lemma RewriteStep(lines: seq<string>, i: nat)
    requires i < |lines|
    ensures var l := lines[i];
      && Rewrite(lines[..i + 1]) == Rewrite(lines[..i]) + (if !AnyMention(lines[..i]) && Mentions(l) then [Printed(Directive)] else []) + [Printed(Strip(l))]
      && (AnyMention(lines[..i + 1]) <==> AnyMention(lines[..i]) || Mentions(l))
  {
    assert lines[..i + 1][..i] == lines[..i];
    assert lines[..i + 1] == lines[..i] + [lines[i]];
  }

  /** The fallback pass (lines 48-53), printing to standard output. */
  method EchoLines(h: Host, lines: seq<string>)
    modifies h
    ensures h.State() == old(h.State()) && h.trace == old(h.trace) + Echo(lines)
  {
    ghost var t0 := h.trace;
    var modified := false;
    var i := 0;
    while i < |lines|
      invariant 0 <= i <= |lines|
      invariant h.State() == old(h.State())
      invariant h.trace == t0 + Echo(lines[..i])
      invariant modified == AnySetting(lines[..i])
    {
      EchoStep(lines, i);
      modified := EchoLine(h, t0, Echo(lines[..i]), modified, lines[i]);
      i := i + 1;
    }
    assert lines[..|lines|] == lines;
  }

  /** One turn of the fallback loop (lines 49-53). */
  method EchoLine(h: Host, ghost t0: seq<Action>, ghost e: seq<Action>, modified: bool, l: string)
    returns (modified': bool)
    requires h.trace == t0 + e
    modifies h
    ensures modified' == (modified || IsSetting(l))
    ensures h.State() == old(h.State())
    ensures h.trace == t0 + (e + (if !modified && IsSetting(l) then [Say(Directive)] else []) + [Say(l)])
  {
    modified' := modified;
    if !modified && IsSetting(l) {
      h.Do(Say(Directive));
      modified' := true;
      AppendAssoc(t0, e, [Say(Directive)]);
      AppendAssoc(t0, e + [Say(Directive)], [Say(l)]);
    } else {
      AppendAssoc(t0, e, [Say(l)]);
    }
    h.Do(Say(l));
  }

  lemma EchoStep(lines: seq<string>, i: nat)
    requires i < |lines|
    ensures var l := lines[i];
      && Echo(lines[..i + 1]) == Echo(lines[..i]) + (if !AnySetting(lines[..i]) && IsSetting(l) then [Say(Directive)] else []) + [Say(l)]
      && (AnySetting(lines[..i + 1]) <==> AnySetting(lines[..i]) || IsSetting(l))
  {
    assert lines[..i + 1][..i] == lines[..i];
    assert lines[..i + 1] == lines[..i] + [lines[i]];
  }

  method FixSshdConfig(h: Host) returns (o: Outcome<()>)
    modifies h
    ensures Did(h, old(h.trace), FixSshdSpec(old(h.State())), o)
  {
    if h.sshdConfig.None? {
      return Raised(MissingFile(SshdPath));
    }
    var lines := h.sshdConfig.value;
    var found := FindDirective(lines);
    if found {
      return Ok(());
    }
    var out, modified := RewriteLines(lines);
    h.sshdConfig := Some(out);
    if !modified {
      EchoLines(h, out);
    }
    return Ok(());
  }

  // ---- properties ----

  lemma StripAllSnoc(lines: seq<string>)
    requires lines != []
    ensures StripAll(lines) == StripAll(lines[..|lines| - 1]) + [Printed(Strip(lines[|lines| - 1]))]
  {
  }

  lemma StripAllSuffix(lines: seq<string>, k: nat)
    requires k < |lines|
    ensures StripAll(lines[k..]) == StripAll(lines[..|lines| - 1][k..]) + [Printed(Strip(lines[|lines| - 1]))]
  {
    assert lines[k..][..|lines| - 1 - k] == lines[..|lines| - 1][k..];
    StripAllSnoc(lines[k..]);
  }

  /** The last line of a file with no mention before it adds only itself, stripped. */
  lemma RewriteQuietStep(lines: seq<string>)
    requires lines != []
    requires AnyMention(lines[..|lines| - 1]) || !Mentions(lines[|lines| - 1])
    ensures Rewrite(lines) == Rewrite(lines[..|lines| - 1]) + [Printed(Strip(lines[|lines| - 1]))]
  {
    var init := lines[..|lines| - 1];
    assert Rewrite(init) + [] == Rewrite(init);
  }

  lemma NoMentionInit(lines: seq<string>, k: nat)
    requires k <= |lines|
    requires forall j | 0 <= j < k :: !Mentions(lines[j])
    ensures !AnyMention(lines[..k])
  {
    var init := lines[..k];
    forall j | 0 <= j < |init| ensures !Mentions(init[j]) {
      assert init[j] == lines[j];
    }
  }

  lemma {:induction false} RewriteWithoutMention(lines: seq<string>)
    requires !AnyMention(lines)
    ensures Rewrite(lines) == StripAll(lines)
    decreases |lines|
  {
    if lines != [] {
      var init := lines[..|lines| - 1];
      NoMentionInit(lines, |lines| - 1);
      RewriteWithoutMention(init);
      RewriteQuietStep(lines);
      StripAllSnoc(lines);
    }
  }

  /** Past the first mention, the pass only strips the lines. */
  lemma {:induction false} RewriteAfterMention(lines: seq<string>, k: nat)
    requires k < |lines| && Mentions(lines[k])
    requires forall j | 0 <= j < k :: !Mentions(lines[j])
    ensures Rewrite(lines) == StripAll(lines[..k]) + [Printed(Directive)] + StripAll(lines[k..])
    decreases |lines|
  {
    var init, l := lines[..|lines| - 1], lines[|lines| - 1];
    if |lines| == k + 1 {
      assert init == lines[..k];
      NoMentionInit(lines, k);
      RewriteWithoutMention(init);
      assert StripAll(lines[k..]) == [Printed(Strip(l))];
    } else {
      assert init[k] == lines[k];
      assert forall j | 0 <= j < k :: init[j] == lines[j];
      RewriteAfterMention(init, k);
      assert AnyMention(init);
      RewriteQuietStep(lines);
      assert init[..k] == lines[..k];
      StripAllSuffix(lines, k);
      AppendAssoc(StripAll(lines[..k]) + [Printed(Directive)], StripAll(init[k..]), [Printed(Strip(l))]);
    }
  }

  /** Stripping a written line: what was written, stripped. */
  lemma PrintedKeepsLine(l: string)
    ensures Strip(Printed(Strip(l))) == Strip(l)
    ensures IsDirective(Printed(Strip(l))) == IsDirective(l)
    ensures IsSetting(Printed(Strip(l))) == IsSetting(l)
    ensures Mentions(Printed(Strip(l))) ==> Mentions(l)
  {
    StripPrinted(l);
    if Mentions(Printed(Strip(l))) {
      ContainsSnoc(Strip(l), '\n', Key);
      ContainsStrip(l, Key);
    }
  }

  lemma DirectiveMentions(l: string)
    ensures IsDirective(l) ==> Mentions(l)
  {
    if IsDirective(l) {
      assert Contains(Strip(l), Key);
      ContainsStrip(l, Key);
    }
  }

  lemma DirectiveLine()
    ensures IsDirective(Printed(Directive))
    ensures Strip(Printed(Directive)) == Directive
  {
    var d := Directive;
    assert TrimLeft(d) == d;
    assert TrimRight(d) == d;
    StripPrinted(d);
    assert Strip(d) == d;
    assert Strip(Printed(Directive))[..|Key|] == Key;
  }

  /** Left alone: a file that already states `PermitRootLogin`. */
  lemma KeepsExplicitDirective(f: Files)
    requires f.sshdConfig.Some? && HasDirective(f.sshdConfig.value)
    ensures FixSshdSpec(f) == Step(f, [], Ok(()))
  {
  }

  /** With a mention at `k` and none before: exactly one directive, put
      right before line `k`; every other line kept, in order, stripped; no
      output. */
  lemma InsertsOneDirective(f: Files, k: nat)
    requires f.sshdConfig.Some? && !HasDirective(f.sshdConfig.value)
    requires k < |f.sshdConfig.value| && Mentions(f.sshdConfig.value[k])
    requires forall j | 0 <= j < k :: !Mentions(f.sshdConfig.value[j])
    ensures var lines := f.sshdConfig.value; var s := FixSshdSpec(f);
      && s.outcome == Ok(()) && s.actions == []
      && s.files == f.(sshdConfig := Some(StripAll(lines[..k]) + [Printed(Directive)] + StripAll(lines[k..])))
    ensures var out := FixSshdSpec(f).files.sshdConfig.value;
      forall j | 0 <= j < |out| :: IsDirective(out[j]) <==> j == k
  {
    var lines := f.sshdConfig.value;
    assert AnyMention(lines);
    RewriteAfterMention(lines, k);
    var out := Rewrite(lines);
    DirectiveLine();
    forall j | 0 <= j < |out| ensures IsDirective(out[j]) <==> j == k {
      if j < k {
        assert out[j] == Printed(Strip(lines[j]));
        PrintedKeepsLine(lines[j]);
      } else if j > k {
        assert out[j] == Printed(Strip(lines[j - 1]));
        PrintedKeepsLine(lines[j - 1]);
      }
    }
  }

  /** The fallback changes the file only by stripping it and writes no
      directive into it; the directive appears on standard output exactly
      when some line is a setting. */
  lemma FallbackWritesNoDirective(f: Files)
    requires f.sshdConfig.Some? && !AnyMention(f.sshdConfig.value)
    ensures var lines := f.sshdConfig.value; var s := FixSshdSpec(f);
      && s.outcome == Ok(())
      && s.files == f.(sshdConfig := Some(StripAll(lines)))
      && !HasDirective(StripAll(lines))
      && (Say(Directive) in s.actions <==> AnySetting(lines))
  {
    var lines := f.sshdConfig.value;
    var out := StripAll(lines);
    assert !HasDirective(lines) by {
      forall j | 0 <= j < |lines| ensures !IsDirective(lines[j]) {
        DirectiveMentions(lines[j]);
      }
    }
    RewriteWithoutMention(lines);
    forall j | 0 <= j < |lines| ensures IsDirective(out[j]) == IsDirective(lines[j]) && IsSetting(out[j]) == IsSetting(lines[j]) {
      PrintedKeepsLine(lines[j]);
    }
    assert AnySetting(out) == AnySetting(lines);
    forall j | 0 <= j < |out| ensures out[j] != Directive {
      assert out[j][|out[j]| - 1] == '\n';
    }
    EchoAnnounces(out);
  }

  lemma {:induction false} EchoAnnounces(lines: seq<string>)
    requires forall j | 0 <= j < |lines| :: lines[j] != Directive
    ensures Say(Directive) in Echo(lines) <==> AnySetting(lines)
    decreases |lines|
  {
    if lines != [] {
      var init, l := lines[..|lines| - 1], lines[|lines| - 1];
      EchoAnnounces(init);
      assert lines == init + [l];
      assert AnySetting(lines) <==> AnySetting(init) || IsSetting(l);
    }
  }

  /** A second run leaves the file as the first left it, and after an
      insertion it does nothing at all. */
  lemma Idempotent(f: Files)
    requires f.sshdConfig.Some?
    ensures var f1 := FixSshdSpec(f).files; FixSshdSpec(f1).files == f1 && FixSshdSpec(f1).outcome == Ok(())
    ensures AnyMention(f.sshdConfig.value) ==> FixSshdSpec(FixSshdSpec(f).files) == Step(FixSshdSpec(f).files, [], Ok(()))
  {
    var lines := f.sshdConfig.value;
    if HasDirective(lines) {
    } else if AnyMention(lines) {
      IdempotentAfterInsert(f);
    } else {
      IdempotentFallback(f);
    }
  }

  lemma IdempotentAfterInsert(f: Files)
    requires f.sshdConfig.Some? && !HasDirective(f.sshdConfig.value) && AnyMention(f.sshdConfig.value)
    ensures var f1 := FixSshdSpec(f).files; FixSshdSpec(f1) == Step(f1, [], Ok(()))
  {
    var lines := f.sshdConfig.value;
    var first := FirstIndex(lines, Mentions);
    var k := first.value;
    InsertsOneDirective(f, k);
    var out := FixSshdSpec(f).files.sshdConfig.value;
    assert IsDirective(out[k]);
  }

  lemma IdempotentFallback(f: Files)
    requires f.sshdConfig.Some? && !AnyMention(f.sshdConfig.value)
    ensures var f1 := FixSshdSpec(f).files; FixSshdSpec(f1).files == f1
  {
    var lines := f.sshdConfig.value;
    FallbackWritesNoDirective(f);
    var out := StripAll(lines);
    assert !AnyMention(out) by {
      forall j | 0 <= j < |out| ensures !Mentions(out[j]) {
        PrintedKeepsLine(lines[j]);
      }
    }
    RewriteWithoutMention(out);
    assert StripAll(out) == out by {
      forall j | 0 <= j < |out| ensures StripAll(out)[j] == out[j] {
        PrintedKeepsLine(lines[j]);
      }
    }
  }

  lemma {:induction false} EchoOnlySays(lines: seq<string>)
    ensures forall j | 0 <= j < |Echo(lines)| :: Echo(lines)[j].Say?
    decreases |lines|
  {
    if lines != [] {
      EchoOnlySays(lines[..|lines| - 1]);
    }
  }

  /** `fix_sshd_config` prints lines and runs nothing. */
  lemma FixSshdOnlyPrints(f: Files)
    ensures forall j | 0 <= j < |FixSshdSpec(f).actions| :: FixSshdSpec(f).actions[j].Say?
  {
    if f.sshdConfig.Some? {
      EchoOnlySays(Rewrite(f.sshdConfig.value));
    }
  }

  /** `fix_sshd_config` reads and writes nothing but `sshd_config`. */
  lemma FixSshdFrame(f: Files, g: Files)
    requires f.sshdConfig == g.sshdConfig
    ensures var s := FixSshdSpec(f);
      FixSshdSpec(g) == Step(g.(sshdConfig := s.files.sshdConfig), s.actions, s.outcome)
  {
  }
}
