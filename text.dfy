/** The Python string operations the upgrade tool relies on: `str.strip()`,
    `str.startswith`, the substring test `p in s`, `str.split(sep)`,
    `str.split()`, `str.replace` and `int()` on a string. */
module Text {
  import opened Wrappers

  /** The characters Python's `str.isspace` accepts, which is what `strip()`
      and `split()` without arguments remove. */
  predicate IsSpace(c: char) {
    var n := c as int;
    (9 <= n <= 13) || (28 <= n <= 32) || n == 0x85 || n == 0xA0 || n == 0x1680
    || (0x2000 <= n <= 0x200A) || n == 0x2028 || n == 0x2029 || n == 0x202F
    || n == 0x205F || n == 0x3000
  }

  predicate AllSpace(s: string) {
    forall i | 0 <= i < |s| :: IsSpace(s[i])
  }

  predicate NoSpace(s: string) {
    forall i | 0 <= i < |s| :: !IsSpace(s[i])
  }

  /** `s.lstrip()` */
  function TrimLeft(s: string): (r: string)
    ensures |r| <= |s|
    ensures r == [] || !IsSpace(r[0])
  {
    if s != [] && IsSpace(s[0]) then TrimLeft(s[1..]) else s
  }

  /** `lstrip()` keeps a suffix of `s` and drops only whitespace. */
  lemma {:induction false} TrimLeftDropsSpace(s: string)
    ensures var k := |s| - |TrimLeft(s)|; TrimLeft(s) == s[k..] && AllSpace(s[..k])
    decreases |s|
  {
    if s != [] && IsSpace(s[0]) {
      TrimLeftDropsSpace(s[1..]);
      var k := |s| - |TrimLeft(s)|;
      assert s[1..][k - 1..] == s[k..];
      assert s[..k] == [s[0]] + s[1..][..k - 1];
    }
  }

  /** Left-stripping drops exactly an all-whitespace lead before a character
      that is not whitespace. */
  lemma {:induction false} TrimLeftPastSpace(lead: string, t: string)
    requires AllSpace(lead) && t != [] && !IsSpace(t[0])
    ensures TrimLeft(lead + t) == t
    decreases |lead|
  {
    if lead == [] {
      assert lead + t == t;
    } else {
      assert (lead + t)[0] == lead[0];
      assert (lead + t)[1..] == lead[1..] + t;
      TrimLeftPastSpace(lead[1..], t);
    }
  }

  /** `s.rstrip()` */
  function TrimRight(s: string): (r: string)
    ensures |r| <= |s|
    ensures r == [] || !IsSpace(r[|r| - 1])
  {
    if s != [] && IsSpace(s[|s| - 1]) then TrimRight(s[..|s| - 1]) else s
  }

  /** `rstrip()` keeps a prefix of `s` and drops only whitespace. */
  lemma {:induction false} TrimRightDropsSpace(s: string)
    ensures var k := |TrimRight(s)|; TrimRight(s) == s[..k] && AllSpace(s[k..])
    decreases |s|
  {
    if s != [] && IsSpace(s[|s| - 1]) {
      var init := s[..|s| - 1];
      TrimRightDropsSpace(init);
      var k := |TrimRight(s)|;
      assert init[..k] == s[..k];
      assert s[k..] == init[k..] + [s[|s| - 1]];
    }
  }

  /** `s.strip()`: `s` without its longest all-whitespace prefix and suffix. */
  function Strip(s: string): (r: string)
    ensures |r| <= |s|
    ensures r == [] || (!IsSpace(r[0]) && !IsSpace(r[|r| - 1]))
  {
    TrimRightDropsSpace(TrimLeft(s));
    TrimRight(TrimLeft(s))
  }

  /** What `strip()` keeps is a slice of `s`, and what it drops is whitespace. */
  lemma StripIsSlice(s: string)
    ensures var k := |s| - |TrimLeft(s)|; var r := Strip(s);
      k + |r| <= |s| && r == s[k..k + |r|] && AllSpace(s[..k]) && AllSpace(s[k + |r|..])
  {
    var t := TrimLeft(s);
    var r := TrimRight(t);
    var k := |s| - |t|;
    TrimLeftDropsSpace(s);
    TrimRightDropsSpace(t);
    SuffixSlices(s, k, |r|);
  }

  lemma SuffixSlices(s: string, k: nat, n: nat)
    requires k + n <= |s|
    ensures s[k..][..n] == s[k..k + n] && s[k..][n..] == s[k + n..]
  {
  }

  lemma StripIdempotent(s: string)
    ensures Strip(Strip(s)) == Strip(s)
  {
  }

  lemma StripNoSpace(s: string)
    requires NoSpace(s)
    ensures Strip(s) == s
  {
  }

  /** `s.startswith(p)` */
  predicate StartsWith(s: string, p: string) {
    |p| <= |s| && s[..|p|] == p
  }

  /** `p in s`: `p` occurs in `s` as a contiguous piece. */
  predicate Contains(s: string, p: string)
    decreases |s|
  {
    StartsWith(s, p) || (s != [] && Contains(s[1..], p))
  }

  lemma {:induction false} ContainsInPrefix(s: string, p: string, j: nat)
    requires j <= |s| && Contains(s[..j], p)
    ensures Contains(s, p)
    decreases |s|
  {
    if StartsWith(s[..j], p) {
      assert s[..j][..|p|] == s[..|p|];
    } else {
      assert s[..j][1..] == s[1..][..j - 1];
      ContainsInPrefix(s[1..], p, j - 1);
    }
  }

  /** An occurrence inside a slice is an occurrence in the whole string. */
  lemma {:induction false} ContainsInSlice(s: string, p: string, i: nat, j: nat)
    requires i <= j <= |s| && Contains(s[i..j], p)
    ensures Contains(s, p)
    decreases i
  {
    if i == 0 {
      assert s[i..j] == s[..j];
      ContainsInPrefix(s, p, j);
    } else {
      assert s[1..][i - 1..j - 1] == s[i..j];
      ContainsInSlice(s[1..], p, i - 1, j - 1);
    }
  }

  lemma ContainsStrip(s: string, p: string)
    requires Contains(Strip(s), p)
    ensures Contains(s, p)
  {
    var k := |s| - |TrimLeft(s)|;
    StripIsSlice(s);
    ContainsInSlice(s, p, k, k + |Strip(s)|);
  }

  /** A character outside `p` appended to `s` adds no occurrence of `p`. */
  lemma {:induction false} ContainsSnoc(s: string, c: char, p: string)
    requires p != [] && c !in p && Contains(s + [c], p)
    ensures Contains(s, p)
    decreases |s|
  {
    if StartsWith(s + [c], p) {
      var j := |p| - 1;
      assert p[j] == (s + [c])[j] && p[j] != c;
      assert (s + [c])[..|p|] == s[..|p|];
    } else if s == [] {
      assert (s + [c])[1..] == [];
    } else {
      assert (s + [c])[1..] == s[1..] + [c];
      ContainsSnoc(s[1..], c, p);
    }
  }

  /** Stripping a line that `print` wrote gives what was printed, stripped. */
  lemma StripPrinted(x: string)
    ensures Strip(Strip(x) + "\n") == Strip(x)
  {
    var t := Strip(x);
    var u := t + "\n";
    assert u[|u| - 1] == '\n';
    if t == [] {
      assert TrimLeft(u) == [];
    } else {
      assert u[0] == t[0];
      assert TrimLeft(u) == u;
      assert u[..|u| - 1] == t;
      assert IsSpace(u[|u| - 1]);
      assert TrimRight(u) == TrimRight(t) == t;
    }
  }

  /** The index of the first `c` in `s`. */
  function IndexOf(s: string, c: char): (r: nat)
    requires c in s
    ensures r < |s| && s[r] == c && c !in s[..r]
  {
    if s[0] == c then 0 else 1 + IndexOf(s[1..], c)
  }

  /** `sep.join(parts)` for a one-character separator. */
  function Join(parts: seq<string>, sep: char): string
  {
    if parts == [] then ""
    else if |parts| == 1 then parts[0]
    else parts[0] + [sep] + Join(parts[1..], sep)
  }

  /** Joining with one more part in front puts it and a separator first. */
  lemma JoinCons(h: string, parts: seq<string>, sep: char)
    requires parts != []
    ensures Join([h] + parts, sep) == h + [sep] + Join(parts, sep)
  {
    assert ([h] + parts)[1..] == parts;
  }

  /** Joining with an empty last part ends the text with a separator. */
  lemma {:induction false} JoinEmptyLast(parts: seq<string>, sep: char)
    requires parts != []
    ensures Join(parts + [""], sep) == Join(parts, sep) + [sep]
    decreases |parts|
  {
    if |parts| == 1 {
      assert parts + [""] == [parts[0], ""];
    } else {
      assert (parts + [""])[1..] == parts[1..] + [""];
      JoinEmptyLast(parts[1..], sep);
    }
  }

  /** `s.split(sep)` for a one-character separator: the pieces between the
      separators, at least one (possibly empty) piece. */
  function Split(s: string, sep: char): (r: seq<string>)
    ensures |r| >= 1
    ensures forall i | 0 <= i < |r| :: sep !in r[i]
    ensures Join(r, sep) == s
    decreases |s|
  {
    if sep !in s then [s]
    else
      var i := IndexOf(s, sep);
      var rest := Split(s[i + 1..], sep);
      assert s == s[..i] + [sep] + s[i + 1..];
      [s[..i]] + rest
  }

  /** Splitting what was joined gives the parts back, when no part holds the separator. */
  lemma {:induction false} SplitJoin(parts: seq<string>, sep: char)
    requires |parts| >= 1
    requires forall i | 0 <= i < |parts| :: sep !in parts[i]
    ensures Split(Join(parts, sep), sep) == parts
    decreases |parts|
  {
    if |parts| > 1 {
      var p0 := parts[0];
      var rest := Join(parts[1..], sep);
      var s := p0 + [sep] + rest;
      assert s[|p0|] == sep;
      var i := IndexOf(s, sep);
      assert s[..i] == p0;
      assert s[i + 1..] == rest;
      SplitJoin(parts[1..], sep);
    }
  }

  /** The length of the leading run of non-whitespace characters of `s`. */
  function WordEnd(s: string): (k: nat)
    ensures k <= |s| && (k == |s| || IsSpace(s[k]))
    ensures s != [] && !IsSpace(s[0]) ==> k >= 1
  {
    if s == [] || IsSpace(s[0]) then 0 else 1 + WordEnd(s[1..])
  }

  lemma {:induction false} WordEndNoSpace(s: string)
    ensures NoSpace(s[..WordEnd(s)])
    decreases |s|
  {
    if s != [] && !IsSpace(s[0]) {
      WordEndNoSpace(s[1..]);
      var k := WordEnd(s);
      assert s[..k] == [s[0]] + s[1..][..k - 1];
    }
  }

  /** `s.split()`: the maximal runs of non-whitespace characters, in order. */
  function Words(s: string): seq<string>
    decreases |s|
  {
    var t := TrimLeft(s);
    if t == [] then [] else [t[..WordEnd(t)]] + Words(t[WordEnd(t)..])
  }

  /** Every piece `split()` returns is a non-empty run without whitespace. */
  lemma {:induction false} WordsAreWords(s: string)
    ensures forall i | 0 <= i < |Words(s)| :: Words(s)[i] != [] && NoSpace(Words(s)[i])
    decreases |s|
  {
    var t := TrimLeft(s);
    if t != [] {
      var w := t[..WordEnd(t)];
      var rest := Words(t[WordEnd(t)..]);
      WordEndNoSpace(t);
      WordsAreWords(t[WordEnd(t)..]);
      assert Words(s) == [w] + rest;
      assert forall i | 1 <= i < |Words(s)| :: Words(s)[i] == rest[i - 1];
    }
  }

  lemma {:induction false} WordEndOfWord(w: string, rest: string)
    requires NoSpace(w)
    requires rest == [] || IsSpace(rest[0])
    ensures WordEnd(w + rest) == |w|
    decreases |w|
  {
    if w != [] {
      assert (w + rest)[0] == w[0];
      assert (w + rest)[1..] == w[1..] + rest;
      WordEndOfWord(w[1..], rest);
    }
  }

  lemma WordsOfWord(w: string)
    requires w != [] && NoSpace(w)
    ensures Words(w) == [w]
  {
    WordEndOfWord(w, []);
    assert w + [] == w;
    assert Words(w[|w|..]) == [];
  }

  lemma WordsAfterSpace(c: char, b: string)
    requires IsSpace(c) && b != [] && !IsSpace(b[0])
    ensures Words([c] + b) == Words(b)
  {
    assert ([c] + b)[1..] == b;
    assert TrimLeft([c] + b) == TrimLeft(b) == b;
  }

  lemma WordsOfLeadingWord(a: string, rest: string)
    requires a != [] && NoSpace(a) && rest != [] && IsSpace(rest[0])
    ensures Words(a + rest) == [a] + Words(rest)
  {
    var s := a + rest;
    assert s[0] == a[0];
    assert TrimLeft(s) == s;
    WordEndOfWord(a, rest);
    assert s[..|a|] == a;
    assert s[|a|..] == rest;
  }

  lemma WordsOfBlankPair(a: string, b: string)
    requires a != [] && NoSpace(a) && b != [] && NoSpace(b)
    ensures Words(a + ([' '] + b)) == [a, b]
  {
    var rest := [' '] + b;
    assert Words(rest) == [b] by {
      WordsAfterSpace(' ', b);
      WordsOfWord(b);
    }
    WordsOfLeadingWord(a, rest);
  }

  /** Two words separated by one blank split back into those two words. */
  lemma WordsOfPair(a: string, b: string)
    requires a != [] && NoSpace(a) && b != [] && NoSpace(b)
    ensures Words(a + " " + b) == [a, b]
  {
    WordsOfBlankPair(a, b);
    assert a + " " + b == a + ([' '] + b);
  }

  /** `s.replace(pat, rep)`: the non-overlapping occurrences of `pat`, found
      left to right, replaced by `rep`. */
  function Replace(s: string, pat: string, rep: string): string
    requires pat != []
    decreases |s|
  {
    if s == [] then []
    else if StartsWith(s, pat) then rep + Replace(s[|pat|..], pat, rep)
    else [s[0]] + Replace(s[1..], pat, rep)
  }

  lemma {:induction false} ReplaceSkips(x: string, y: string, pat: string, rep: string)
    requires pat != [] && pat[0] !in x
    ensures Replace(x + y, pat, rep) == x + Replace(y, pat, rep)
    decreases |x|
  {
    if x != [] {
      assert (x + y)[0] == x[0];
      assert (x + y)[1..] == x[1..] + y;
      ReplaceSkips(x[1..], y, pat, rep);
    } else {
      assert x + y == y;
    }
  }

  lemma ReplaceAtStart(y: string, pat: string, rep: string)
    requires pat != []
    ensures Replace(pat + y, pat, rep) == rep + Replace(y, pat, rep)
  {
    assert (pat + y)[..|pat|] == pat;
    assert (pat + y)[|pat|..] == y;
  }

  predicate IsDigit(c: char) {
    '0' <= c <= '9'
  }

  /** What Python's `int()` accepts once the sign is taken off: ASCII digits,
      with single underscores allowed between two digits. */
  predicate IsNumeral(t: string) {
    && t != [] && IsDigit(t[0]) && IsDigit(t[|t| - 1])
    && (forall i | 0 <= i < |t| :: IsDigit(t[i]) || t[i] == '_')
    && (forall i | 0 <= i < |t| - 1 :: !(t[i] == '_' && t[i + 1] == '_'))
  }

  /** The value of the digits of `t`, underscores ignored. */
  function NumeralValue(t: string): nat
    requires forall i | 0 <= i < |t| :: IsDigit(t[i]) || t[i] == '_'
  {
    if t == [] then 0
    else
      var last := t[|t| - 1];
      var v := NumeralValue(t[..|t| - 1]);
      if IsDigit(last) then v * 10 + (last as int - '0' as int) else v
  }

  /** The whitespace `int()` skips around a numeral: the ASCII characters
      tab, line feed, vertical tab, form feed, carriage return and space, and
      every non-ASCII character `str.isspace` accepts (CPython turns those
      into spaces first). The separators U+001C to U+001F, which `strip()`
      removes, are not skipped. */
  predicate IsIntSpace(c: char) {
    IsSpace(c) && !(28 <= c as int <= 31)
  }

  function IntTrimLeft(s: string): (r: string)
    ensures r == [] || !IsIntSpace(r[0])
  {
    if s != [] && IsIntSpace(s[0]) then IntTrimLeft(s[1..]) else s
  }

  function IntTrimRight(s: string): (r: string)
    ensures r == [] || !IsIntSpace(r[|r| - 1])
  {
    if s != [] && IsIntSpace(s[|s| - 1]) then IntTrimRight(s[..|s| - 1]) else s
  }

  /** Python's `int(s)` for a string over ASCII digits (Python also accepts
      other Unicode decimal digits); `None` where `int` raises ValueError. */
  function ParseInt(s: string): Option<int>
  {
    var t := IntTrimRight(IntTrimLeft(s));
    if t != [] && (t[0] == '-' || t[0] == '+') then
      if IsNumeral(t[1..]) then
        var v: int := NumeralValue(t[1..]);
        Some(if t[0] == '-' then -v else v)
      else None
    else if IsNumeral(t) then Some(NumeralValue(t))
    else None
  }

  /** Unlike `strip()`, `int()` does not skip a trailing information
      separator: `int("123\x1c")` raises. */
  lemma ParseIntKeepsSeparator(t: string, c: char)
    requires t != [] && forall i | 0 <= i < |t| :: IsDigit(t[i])
    requires 28 <= c as int <= 31
    ensures IsSpace(c) && Strip(t + [c]) == t
    ensures ParseInt(t + [c]) == None
  {
    var u := t + [c];
    assert u[..|u| - 1] == t;
    assert IntTrimRight(u) == u;
    assert IntTrimLeft(u) == u;
    assert !IsDigit(u[|u| - 1]);
    assert NoSpace(t);
    StripNoSpace(t);
  }

  function DigitChar(d: nat): (c: char)
    requires d < 10
    ensures IsDigit(c) && c as int - '0' as int == d
  {
    ('0' as int + d) as char
  }

  /** `str(n)` for a natural number. */
  function NatToString(n: nat): (r: string)
    ensures r != [] && forall i | 0 <= i < |r| :: IsDigit(r[i])
  {
    if n < 10 then [DigitChar(n)] else NatToString(n / 10) + [DigitChar(n % 10)]
  }

  lemma {:induction false} NumeralValueOfNat(n: nat)
    ensures NumeralValue(NatToString(n)) == n
  {
    var s := NatToString(n);
    if n < 10 {
      assert s[..0] == [];
    } else {
      assert s[..|s| - 1] == NatToString(n / 10);
      NumeralValueOfNat(n / 10);
    }
  }

  /** `int(str(n)) == n` */
  lemma ParseNatToString(n: nat)
    ensures ParseInt(NatToString(n)) == Some(n)
  {
    var s := NatToString(n);
    assert IntTrimLeft(s) == s && IntTrimRight(s) == s;
    NumeralValueOfNat(n);
  }
}
