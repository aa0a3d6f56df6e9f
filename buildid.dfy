/** `get_build_hash`: a product build id such as `7.5.0 (123)` folded into
    one integer. */
module BuildId {
  import opened Wrappers
  import opened Text

  /** The id with ` (` turned into `.` and `)` dropped (lines 202-203). */
  function Dotted(ver: string): string {
    Replace(Replace(ver, " (", "."), ")", "")
  }

  /** `int(a)*10000 + int(b)*1000 + int(c)*100 + int(d)` over exactly four
      pieces; 0 where the unpacking or an `int()` raises. */
  function Fold(parts: seq<string>): int {
    if |parts| != 4 then 0
    else
      var a, b, c, d := ParseInt(parts[0]), ParseInt(parts[1]), ParseInt(parts[2]), ParseInt(parts[3]);
      if a.Some? && b.Some? && c.Some? && d.Some? then
        a.value * 10000 + b.value * 1000 + c.value * 100 + d.value
      else 0
  }

  function BuildHash(ver: string): int {
    Fold(Split(Dotted(ver), '.'))
  }

  /** The id as the product prints it. */
  function VersionText(a: nat, b: nat, c: nat, d: nat): string {
    NatToString(a) + "." + NatToString(b) + "." + NatToString(c) + " (" + NatToString(d) + ")"
  }

  lemma DigitsOnly(s: string)
    requires forall i | 0 <= i < |s| :: IsDigit(s[i])
    ensures ' ' !in s && ')' !in s && '.' !in s
  {
    assert forall i | 0 <= i < |s| :: s[i] != ' ' && s[i] != ')' && s[i] != '.';
  }

  /** The two replacements on `x (D)`, where `x` holds no blank and no
      parenthesis and `D` only digits. */
  lemma DottedOf(x: string, D: string)
    requires ' ' !in x && ')' !in x
    requires forall i | 0 <= i < |D| :: IsDigit(D[i])
    ensures Dotted(x + " (" + D + ")") == x + "." + D
  {
    DigitsOnly(D);
    assert x + " (" + D + ")" == x + (" (" + (D + ")"));
    ReplaceSkips(x, " (" + (D + ")"), " (", ".");
    ReplaceAtStart(D + ")", " (", ".");
    assert ' ' !in D + ")";
    ReplaceSkips(D + ")", [], " (", ".");
    assert D + ")" + [] == D + ")";
    var y := x + "." + D;
    assert Replace(x + " (" + D + ")", " (", ".") == y + ")";
    assert ')' !in y;
    ReplaceSkips(y, ")", ")", "");
    ReplaceAtStart([], ")", "");
    assert ")" + [] == ")";
  }

  lemma SplitFour(A: string, B: string, C: string, D: string)
    requires '.' !in A && '.' !in B && '.' !in C && '.' !in D
    ensures Split(A + "." + B + "." + C + "." + D, '.') == [A, B, C, D]
  {
    var parts := [A, B, C, D];
    assert Join([D], '.') == D;
    assert Join([C, D], '.') == C + "." + D;
    assert Join([B, C, D], '.') == B + "." + (C + "." + D);
    assert Join(parts, '.') == A + "." + B + "." + C + "." + D;
    SplitJoin(parts, '.');
  }

  lemma SplitThree(A: string, B: string, D: string)
    requires '.' !in A && '.' !in B && '.' !in D
    ensures Split(A + "." + B + "." + D, '.') == [A, B, D]
  {
    var parts := [A, B, D];
    assert Join([D], '.') == D;
    assert Join([B, D], '.') == B + "." + D;
    assert Join(parts, '.') == A + "." + B + "." + D;
    SplitJoin(parts, '.');
  }

  lemma DigitsNoBlank(A: string, B: string, C: string)
    requires forall i | 0 <= i < |A| :: IsDigit(A[i])
    requires forall i | 0 <= i < |B| :: IsDigit(B[i])
    requires forall i | 0 <= i < |C| :: IsDigit(C[i])
    ensures var x := A + "." + B + "." + C; ' ' !in x && ')' !in x
  {
    DigitsOnly(A);
    DigitsOnly(B);
    DigitsOnly(C);
  }

  /** A well-formed id `a.b.c (d)` folds to `a*10000 + b*1000 + c*100 + d`. */
  lemma BuildHashOfVersion(a: nat, b: nat, c: nat, d: nat)
    ensures BuildHash(VersionText(a, b, c, d)) == a * 10000 + b * 1000 + c * 100 + d
  {
    var A, B, C, D := NatToString(a), NatToString(b), NatToString(c), NatToString(d);
    DigitsNoBlank(A, B, C);
    DottedOf(A + "." + B + "." + C, D);
    DigitsOnly(A);
    DigitsOnly(B);
    DigitsOnly(C);
    DigitsOnly(D);
    SplitFour(A, B, C, D);
    ParseNatToString(a);
    ParseNatToString(b);
    ParseNatToString(c);
    ParseNatToString(d);
  }

  /** An id with a part missing, `a.b (d)`, folds to 0. */
  lemma BuildHashRejectsShortId(a: nat, b: nat, d: nat)
    ensures BuildHash(NatToString(a) + "." + NatToString(b) + " (" + NatToString(d) + ")") == 0
  {
    var A, B, D := NatToString(a), NatToString(b), NatToString(d);
    DigitsOnly(A);
    DigitsOnly(B);
    DigitsOnly(D);
    DottedOf(A + "." + B, D);
    SplitThree(A, B, D);
  }

  /** The fold is not one-to-one: `1.0.0 (0)` and `0.10.0 (0)` are different
      ids with the same hash. */
  lemma BuildHashCollides()
    ensures VersionText(1, 0, 0, 0) != VersionText(0, 10, 0, 0)
    ensures BuildHash(VersionText(1, 0, 0, 0)) == BuildHash(VersionText(0, 10, 0, 0)) == 10000
  {
    BuildHashOfVersion(1, 0, 0, 0);
    BuildHashOfVersion(0, 10, 0, 0);
    assert VersionText(1, 0, 0, 0)[0] == '1';
    assert VersionText(0, 10, 0, 0)[0] == '0';
  }
}
