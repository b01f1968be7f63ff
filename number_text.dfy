/**
 * The display text as a number: the characters digit entry writes, the
 * reading wcstod gives of a decimal numeral, and how that reading changes
 * as digits and the decimal point are typed.
 */
module NumberText {

  predicate IsDigit(c: char) {
    '0' <= c <= '9'
  }

  function DigitValue(c: char): (d: nat)
    requires IsDigit(c)
    ensures d <= 9
  {
    c as int - '0' as int
  }

  /** The character written for digit d, as L'0' + digit and "%d" both give it. */
  function DigitChar(d: int): (c: char)
    requires 0 <= d <= 9
    ensures IsDigit(c) && DigitValue(c) == d
  {
    ('0' as int + d) as char
  }

  predicate AllDigits(s: string) {
    forall i :: 0 <= i < |s| ==> IsDigit(s[i])
  }

  /** Length of the longest run of digits that starts s. */
  function DigitRun(s: string): (n: nat)
    ensures n <= |s| && AllDigits(s[..n])
    ensures n < |s| ==> !IsDigit(s[n])
  {
    if s == [] || !IsDigit(s[0]) then 0
    else
      var m := DigitRun(s[1..]);
      assert s[..1 + m] == [s[0]] + s[1..][..m];
      1 + m
  }

  /** Value of a decimal digit string, most significant digit first. */
  function Natural(ds: string): nat
    requires AllDigits(ds)
  {
    if ds == [] then 0 else 10 * Natural(ds[..|ds| - 1]) + DigitValue(ds[|ds| - 1])
  }

  function Pow10(n: nat): (p: nat)
    ensures p > 0
  {
    if n == 0 then 1 else 10 * Pow10(n - 1)
  }

  /** Value of the numeral whole.frac. */
  function DecimalValue(whole: string, frac: string): real
    requires AllDigits(whole) && AllDigits(frac)
  {
    Natural(whole) as real + Natural(frac) as real / Pow10(|frac|) as real
  }

  /** Value of the unsigned numeral wcstod reads at the start of body. */
  function Magnitude(body: string): (m: real)
    ensures 0.0 <= m
  {
    var n := DigitRun(body);
    var rest := body[n..];
    var frac := if rest != [] && rest[0] == '.' then rest[1..][..DigitRun(rest[1..])] else [];
    DecimalValue(body[..n], frac)
  }

  /**
   * wcstod on the display: an optional sign, a run of digits, then
   * optionally a point and a second run of digits; reading stops at the
   * first character that does not fit, and nothing readable gives 0.
   */
  function Parse(s: string): (r: real)
    ensures s == [] ==> r == 0.0
    ensures (s == [] || s[0] != '-') ==> 0.0 <= r
    ensures s != [] && s[0] == '-' ==> r <= 0.0
    ensures s != [] && !IsDigit(s[0]) && s[0] !in "+-." ==> r == 0.0
  {
    if s != [] && s[0] == '-' then -Magnitude(s[1..])
    else if s != [] && s[0] == '+' then Magnitude(s[1..])
    else Magnitude(s)
  }

  /** Position of the first point of s, as wcschr finds it. */
  function IndexOfPoint(s: string): (k: nat)
    requires '.' in s
    ensures k < |s| && s[k] == '.' && '.' !in s[..k]
  {
    if s[0] == '.' then 0
    else
      var k := IndexOfPoint(s[1..]);
      assert s[..k + 1] == [s[0]] + s[1..][..k];
      k + 1
  }

  /**
   * Text that digit and decimal-point entry build: it starts with a digit
   * and continues with digits and at most one point.
   */
  predicate IsEntryText(s: string) {
    && s != []
    && IsDigit(s[0])
    && (forall i :: 0 <= i < |s| ==> IsDigit(s[i]) || s[i] == '.')
    && (forall i, j :: 0 <= i < j < |s| && s[i] == '.' ==> s[j] != '.')
  }

  /** A leading string of digits belongs to the run, which goes on into what follows. */
  lemma {:induction false} DigitRunAppend(w: string, r: string)
    requires AllDigits(w)
    ensures DigitRun(w + r) == |w| + DigitRun(r)
  {
    if w == [] {
      assert w + r == r;
    } else {
      assert (w + r)[1..] == w[1..] + r;
      DigitRunAppend(w[1..], r);
    }
  }

  /** A string of digits is one whole run. */
  lemma DigitRunOfDigits(s: string)
    requires AllDigits(s)
    ensures DigitRun(s) == |s|
  {
    DigitRunAppend(s, []);
    assert s + [] == s;
  }

  /** Scaling by ten splits over a sum: the step a new fraction digit takes. */
  lemma FractionStep(x: real, n: real, d: real, p: real, n': real, p': real)
    requires p > 0.0 && n' == 10.0 * n + d && p' == 10.0 * p
    ensures x + n' / p' == (x + n / p) + d / p'
  {
    assert (10.0 * n) / (10.0 * p) == n / p;
    assert n' / p' == (10.0 * n) / p' + d / p';
  }

  /** A digit string without sign or point reads as its natural value. */
  lemma ParseDigits(w: string)
    requires w != [] && AllDigits(w)
    ensures Parse(w) == Natural(w) as real
  {
    DigitRunOfDigits(w);
    assert w[..|w|] == w;
    assert w[|w|..] == [];
  }

  /** A digit string, a point and a digit string read as whole.frac. */
  lemma ParsePointed(w: string, f: string)
    requires w != [] && AllDigits(w) && AllDigits(f)
    ensures Parse(w + "." + f) == DecimalValue(w, f)
  {
    var s := w + "." + f;
    assert s == w + ("." + f);
    DigitRunAppend(w, "." + f);
    var n := DigitRun(s);
    assert s[..n] == w;
    assert s[n..][1..] == f;
    DigitRunOfDigits(f);
    assert f[..|f|] == f;
  }

  /** Entry text is digits, or digits, one point and digits. */
  lemma EntryParts(s: string)
    requires IsEntryText(s)
    ensures '.' !in s ==> AllDigits(s)
    ensures '.' in s ==>
      var k := IndexOfPoint(s);
      && 0 < k
      && AllDigits(s[..k]) && AllDigits(s[k + 1..])
      && s == s[..k] + "." + s[k + 1..]
  {
    if '.' in s {
      var k := IndexOfPoint(s);
      assert s == s[..k] + "." + s[k + 1..];
      var f := s[k + 1..];
      forall i | 0 <= i < |f|
        ensures IsDigit(f[i])
      {
        assert f[i] == s[k + 1 + i] != '.';
      }
      forall i | 0 <= i < k
        ensures IsDigit(s[..k][i])
      {
        assert s[..k][i] == s[i];
      }
    } else {
      forall i | 0 <= i < |s|
        ensures IsDigit(s[i])
      {
        assert s[i] in s;
      }
    }
  }

  /** Adding digit c at the end of a whole number shifts it in: 10v + c. */
  lemma {:induction false} ParseAppendWholeDigit(w: string, c: char)
    requires w != [] && AllDigits(w) && IsDigit(c)
    ensures Parse(w + [c]) == 10.0 * Parse(w) + DigitValue(c) as real
  {
    ParseDigits(w);
    ParseDigits(w + [c]);
    assert (w + [c])[..|w|] == w;
  }

  /** One more fraction digit c adds c / 10^(k+1) to whole.frac. */
  lemma DecimalValueAppend(w: string, f: string, c: char)
    requires AllDigits(w) && AllDigits(f) && IsDigit(c)
    ensures DecimalValue(w, f + [c]) == DecimalValue(w, f) + DigitValue(c) as real / Pow10(|f| + 1) as real
  {
    var n, p, d := Natural(f), Pow10(|f|), DigitValue(c);
    assert (f + [c])[..|f|] == f;
    var n', p' := Natural(f + [c]), Pow10(|f| + 1);
    assert n' == 10 * n + d;
    assert p' == 10 * p;
    FractionStep(Natural(w) as real, n as real, d as real, p as real, n' as real, p' as real);
  }

  /** Adding digit c after k fraction digits adds c / 10^(k+1). */
  lemma ParseAppendFractionDigit(w: string, f: string, c: char)
    requires w != [] && AllDigits(w) && AllDigits(f) && IsDigit(c)
    ensures Parse(w + "." + f + [c]) == Parse(w + "." + f) + DigitValue(c) as real / Pow10(|f| + 1) as real
  {
    ParsePointed(w, f);
    assert w + "." + f + [c] == w + "." + (f + [c]);
    ParsePointed(w, f + [c]);
    DecimalValueAppend(w, f, c);
  }

  /** Typing a digit keeps entry text well formed. */
  lemma EntryAppendDigit(s: string, c: char)
    requires IsEntryText(s) && IsDigit(c)
    ensures IsEntryText(s + [c])
  {
    var t := s + [c];
    forall i, j | 0 <= i < j < |t| && t[i] == '.'
      ensures t[j] != '.'
    {
      if j < |s| {
        assert s[i] == '.';
      }
    }
  }

  /** Typing a digit adds it to the value the entry text reads as. */
  lemma ParseAppendDigit(s: string, c: char)
    requires IsEntryText(s) && IsDigit(c)
    ensures '.' !in s ==> Parse(s + [c]) == 10.0 * Parse(s) + DigitValue(c) as real
    ensures '.' in s ==>
      Parse(s + [c]) == Parse(s) + DigitValue(c) as real / Pow10(|s| - IndexOfPoint(s)) as real
  {
    EntryParts(s);
    if '.' in s {
      var k := IndexOfPoint(s);
      ParseAppendFractionDigit(s[..k], s[k + 1..], c);
      assert |s[k + 1..]| + 1 == |s| - k;
    } else {
      ParseAppendWholeDigit(s, c);
    }
  }

  /** Typing the point into text without one keeps it entry text. */
  lemma EntryAppendPoint(s: string)
    requires IsEntryText(s) && '.' !in s
    ensures IsEntryText(s + ".") && '.' in s + "."
  {
    var t := s + ".";
    assert t[|s|] == '.';
    assert forall i :: 0 <= i < |s| ==> t[i] == s[i] && s[i] in s;
  }

  /** Typing the point leaves the value alone. */
  lemma ParseAppendPoint(s: string)
    requires IsEntryText(s) && '.' !in s
    ensures Parse(s + ".") == Parse(s)
  {
    EntryParts(s);
    ParseDigits(s);
    assert s + "." + [] == s + ".";
    ParsePointed(s, []);
  }

  /**
   * The number digit entry leaves on display: a lone "0" gives way to the
   * digit, any other entry text gets it appended, and either way the digit
   * is shifted into the value (10v + d before the point, v + d / 10^k after).
   */
  lemma TypedDigitValue(s: string, d: int)
    requires IsEntryText(s) && 0 <= d <= 9
    ensures var t := if s == "0" then [DigitChar(d)] else s + [DigitChar(d)];
      && IsEntryText(t)
      && Parse(t) == if '.' in s
           then Parse(s) + d as real / Pow10(|s| - IndexOfPoint(s)) as real
           else 10.0 * Parse(s) + d as real
  {
    if s == "0" {
      ParseDigitChar(d);
      ParseReplaceZero(d);
    } else {
      EntryAppendDigit(s, DigitChar(d));
      ParseAppendDigit(s, DigitChar(d));
    }
  }

  /** The single digit a fresh entry writes reads as that digit. */
  lemma ParseDigitChar(d: int)
    requires 0 <= d <= 9
    ensures IsEntryText([DigitChar(d)])
    ensures Parse([DigitChar(d)]) == d as real
  {
    ParseDigits([DigitChar(d)]);
    assert [DigitChar(d)][..0] == [];
  }

  /** Replacing a lone "0" by a digit is what appending it would give: 10 * 0 + d. */
  lemma ParseReplaceZero(d: int)
    requires 0 <= d <= 9
    ensures IsEntryText("0") && '.' !in "0"
    ensures Parse([DigitChar(d)]) == 10.0 * Parse("0") + d as real
  {
    ParseDigitChar(d);
    ParseDigitChar(0);
    assert [DigitChar(0)] == "0";
  }

  /** The "0." a fresh decimal entry writes reads as zero. */
  lemma ParseZeroPoint()
    ensures IsEntryText("0.") && '.' in "0."
    ensures Parse("0.") == 0.0
  {
    assert "0." == "0" + "." + [];
    ParsePointed("0", []);
    assert "0"[..0] == [];
  }
}
