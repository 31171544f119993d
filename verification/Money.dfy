/**
 Exact money: nano-USD integers at the API boundary, written as decimal strings.

 `Spells` is the grammar of the accepted strings together with their value; `ParseUSD` decides it
 and `Print` is its canonical inverse.
 */
module Money {
  import opened Numbers
  import opened Options

  const FRACTION_DIGITS: nat := 9
  const NANOS_PER_USD: nat := 1_000_000_000

  predicate IsDigit(c: char) {
    '0' <= c <= '9'
  }

  predicate AllDigits(s: string) {
    forall i :: 0 <= i < |s| ==> IsDigit(s[i])
  }

  function DigitValue(c: char): (d: nat)
    requires IsDigit(c)
    ensures d <= 9
  {
    (c as int) - ('0' as int)
  }

  function DigitChar(d: nat): (c: char)
    requires d <= 9
    ensures IsDigit(c) && DigitValue(c) == d
  {
    (d + ('0' as int)) as char
  }

  function NatOf(s: string): nat
    requires AllDigits(s)
  {
    if s == "" then 0 else NatOf(s[..|s| - 1]) * 10 + DigitValue(s[|s| - 1])
  }

  function Pow10(k: nat): (p: nat)
    ensures p > 0
  {
    if k == 0 then 1 else 10 * Pow10(k - 1)
  }

  function Zeros(k: nat): (z: string)
    ensures |z| == k && AllDigits(z)
    ensures forall i :: 0 <= i < k ==> z[i] == '0'
  {
    if k == 0 then "" else Zeros(k - 1) + "0"
  }

  // ---------------------------------------------------------------------------------------
  // The grammar
  // ---------------------------------------------------------------------------------------

  /** `s` is the whole part `w`, followed by a point and the fraction `f` unless `f` is empty. */
  ghost predicate Written(s: string, w: string, f: string) {
    && s == w + (if f == "" then "" else "." + f)
    && AllDigits(w) && AllDigits(f)
    && w != "" && (|w| == 1 || w[0] != '0')
    && |f| <= FRACTION_DIGITS
  }

  function Nanos(w: string, f: string): nat
    requires AllDigits(w) && AllDigits(f) && |f| <= FRACTION_DIGITS
  {
    NatOf(w + f + Zeros(FRACTION_DIGITS - |f|))
  }

  ghost predicate Spells(s: string, v: int) {
    exists w, f :: Written(s, w, f) && v == Nanos(w, f)
  }

  /** No superfluous trailing zero, and no point without a fraction. */
  ghost predicate Canonical(s: string) {
    exists w, f :: Written(s, w, f) && (f == "" || f[|f| - 1] != '0')
  }

  // ---------------------------------------------------------------------------------------
  // Printing
  // ---------------------------------------------------------------------------------------

  function FormatInt(n: nat): (s: string)
    ensures s != "" && AllDigits(s)
  {
    if n < 10 then [DigitChar(n)] else FormatInt(n / 10) + [DigitChar(n % 10)]
  }

  /** The last `k` digits of `n`, with leading zeros. */
  function Padded(n: nat, k: nat): (s: string)
    ensures |s| == k && AllDigits(s)
  {
    if k == 0 then "" else Padded(n / 10, k - 1) + [DigitChar(n % 10)]
  }

  function TrimZeros(s: string): (t: string)
    ensures |t| <= |s| && t == s[..|t|]
    ensures t == "" || t[|t| - 1] != '0'
    ensures forall i :: |t| <= i < |s| ==> s[i] == '0'
  {
    if s != "" && s[|s| - 1] == '0' then TrimZeros(s[..|s| - 1]) else s
  }

  function Print(v: nat): string {
    var whole, fraction := v / NANOS_PER_USD, v % NANOS_PER_USD;
    if fraction == 0 then FormatInt(whole)
    else FormatInt(whole) + "." + TrimZeros(Padded(fraction, FRACTION_DIGITS))
  }

  // ---------------------------------------------------------------------------------------
  // Digit strings and numbers
  // ---------------------------------------------------------------------------------------

  lemma {:induction false} NatOfConcat(a: string, b: string)
    requires AllDigits(a) && AllDigits(b)
    ensures AllDigits(a + b) && NatOf(a + b) == NatOf(a) * Pow10(|b|) + NatOf(b)
  {
    if b == "" {
      assert a + b == a;
    } else {
      var front := b[..|b| - 1];
      NatOfConcat(a, front);
      assert (a + b)[..|a + b| - 1] == a + front;
      assert NatOf(a) * (10 * Pow10(|front|)) == 10 * (NatOf(a) * Pow10(|front|));
    }
  }

  lemma {:induction false} NatOfBound(s: string)
    requires AllDigits(s)
    ensures NatOf(s) < Pow10(|s|)
  {
    if s != "" { NatOfBound(s[..|s| - 1]); }
  }

  lemma {:induction false} NatOfPadded(n: nat, k: nat)
    requires n < Pow10(k)
    ensures NatOf(Padded(n, k)) == n
  {
    if k > 0 {
      NatOfPadded(n / 10, k - 1);
      assert Padded(n, k)[..k - 1] == Padded(n / 10, k - 1);
    }
  }

  lemma {:induction false} PaddedNatOf(s: string)
    requires AllDigits(s)
    ensures Padded(NatOf(s), |s|) == s
  {
    if s != "" {
      var front, d := s[..|s| - 1], DigitValue(s[|s| - 1]);
      PaddedNatOf(front);
      assert NatOf(s) == NatOf(front) * 10 + d;
      assert NatOf(s) / 10 == NatOf(front) && NatOf(s) % 10 == d;
      assert s == front + [s[|s| - 1]];
    }
  }

  lemma {:induction false} NatOfFormat(n: nat)
    ensures NatOf(FormatInt(n)) == n
    ensures |FormatInt(n)| == 1 || FormatInt(n)[0] != '0'
    ensures n > 0 ==> FormatInt(n)[0] != '0'
  {
    if n >= 10 {
      NatOfFormat(n / 10);
      assert FormatInt(n)[..|FormatInt(n)| - 1] == FormatInt(n / 10);
    }
  }

  lemma {:induction false} FormatNatOf(s: string)
    requires AllDigits(s) && s != "" && (|s| == 1 || s[0] != '0')
    ensures FormatInt(NatOf(s)) == s
    ensures s[0] != '0' ==> NatOf(s) > 0
  {
    var front, d := s[..|s| - 1], DigitValue(s[|s| - 1]);
    assert s == front + [s[|s| - 1]];
    if |s| > 1 {
      FormatNatOf(front);
      assert NatOf(s) / 10 == NatOf(front) && NatOf(s) % 10 == d;
    }
  }

  lemma TrimOneZero(s: string)
    ensures TrimZeros(s + "0") == TrimZeros(s)
  {
    assert (s + "0")[..|s + "0"| - 1] == s;
  }

  lemma OneMoreZero(t: string, k: nat)
    ensures t + Zeros(k) + "0" == t + Zeros(k + 1)
  {
  }

  lemma TrimmedThenZeros(s: string)
    ensures s == TrimZeros(s) + Zeros(|s| - |TrimZeros(s)|)
  {
    var t := TrimZeros(s);
    assert s == s[..|t|] + s[|t|..];
    assert s[|t|..] == Zeros(|s| - |t|);
  }

  lemma {:induction false} TrimOfPaddedRight(f: string, k: nat)
    requires f == "" || f[|f| - 1] != '0'
    ensures TrimZeros(f + Zeros(k)) == f
  {
    if k == 0 {
      assert f + Zeros(0) == f;
    } else {
      TrimOfPaddedRight(f, k - 1);
      TrimOneZero(f + Zeros(k - 1));
      OneMoreZero(f, k - 1);
    }
  }

  lemma {:induction false} NatOfZeros(k: nat)
    ensures NatOf(Zeros(k)) == 0
  {
    if k > 0 {
      NatOfZeros(k - 1);
      assert Zeros(k)[..k - 1] == Zeros(k - 1);
    }
  }

  lemma TenToTheNine()
    ensures Pow10(FRACTION_DIGITS) == NANOS_PER_USD
  {
    assert Pow10(3) == 1000;
    assert Pow10(6) == 1000 * Pow10(3);
    assert Pow10(9) == 1000 * Pow10(6);
  }

  // ---------------------------------------------------------------------------------------
  // Splitting at the points
  // ---------------------------------------------------------------------------------------

  predicate IsSpace(c: char) {
    c == ' ' || ('\t' <= c <= '\r') || c as int == 0x85 || c as int == 0xA0
  }

  /** The pieces between points. */
  function Parts(s: string): (parts: seq<string>)
    ensures parts != []
  {
    if s == "" then [""] else
      var parts, c := Parts(s[..|s| - 1]), s[|s| - 1];
      if c == '.' then parts + [""] else parts[|parts| - 1 := parts[|parts| - 1] + [c]]
  }

  lemma {:induction false} PartsOfPlain(s: string)
    requires '.' !in s
    ensures Parts(s) == [s]
  {
    if s != "" {
      PartsOfPlain(s[..|s| - 1]);
      assert s == s[..|s| - 1] + [s[|s| - 1]];
    }
  }

  lemma {:induction false} PartsOfPointed(w: string, f: string)
    requires '.' !in w && '.' !in f
    ensures Parts(w + "." + f) == [w, f]
  {
    var s := w + "." + f;
    if f == "" {
      assert s[..|s| - 1] == w;
      PartsOfPlain(w);
    } else {
      var front := f[..|f| - 1];
      assert s[..|s| - 1] == w + "." + front && s[|s| - 1] == f[|f| - 1];
      PartsOfPointed(w, front);
      assert f == front + [f[|f| - 1]];
    }
  }

  lemma {:induction false} PartsJoin(s: string)
    ensures |Parts(s)| == 1 ==> s == Parts(s)[0]
    ensures |Parts(s)| == 2 ==> s == Parts(s)[0] + "." + Parts(s)[1]
    ensures forall i :: 0 <= i < |Parts(s)| ==> '.' !in Parts(s)[i]
  {
    if s != "" {
      PartsJoin(s[..|s| - 1]);
      assert s == s[..|s| - 1] + [s[|s| - 1]];
    }
  }

  /** A written amount falls into the parts it was written from. */
  lemma PartsOfWritten(s: string, w: string, f: string)
    requires Written(s, w, f)
    ensures Parts(s) == if f == "" then [w] else [w, f]
    ensures !IsSpace(s[0]) && !IsSpace(s[|s| - 1])
  {
    assert '.' !in w && '.' !in f;
    if f == "" {
      assert s == w;
      PartsOfPlain(w);
    } else {
      assert s == w + "." + f;
      PartsOfPointed(w, f);
    }
  }

  lemma WrittenIsUnique(s: string, w: string, f: string, w': string, f': string)
    requires Written(s, w, f) && Written(s, w', f')
    ensures w == w' && f == f'
  {
    PartsOfWritten(s, w, f);
    PartsOfWritten(s, w', f');
  }

  // ---------------------------------------------------------------------------------------
  // The value of a written amount
  // ---------------------------------------------------------------------------------------

  /** The whole part and the nine-digit fraction are the quotient and the remainder. */
  lemma NanosSplit(w: string, f: string)
    requires AllDigits(w) && AllDigits(f) && |f| <= FRACTION_DIGITS
    ensures var fraction := f + Zeros(FRACTION_DIGITS - |f|);
            && AllDigits(fraction)
            && Nanos(w, f) / NANOS_PER_USD == NatOf(w)
            && Nanos(w, f) % NANOS_PER_USD == NatOf(fraction)
  {
    var fraction := f + Zeros(FRACTION_DIGITS - |f|);
    assert w + f + Zeros(FRACTION_DIGITS - |f|) == w + fraction;
    NatOfConcat(w, fraction);
    NatOfBound(fraction);
    TenToTheNine();
  }

  /** A string has at most one value. */
  lemma SpellsIsUnique(s: string, v: int, u: int)
    requires Spells(s, v) && Spells(s, u)
    ensures v == u
  {
    var w, f :| Written(s, w, f) && v == Nanos(w, f);
    var w', f' :| Written(s, w', f') && u == Nanos(w', f');
    WrittenIsUnique(s, w, f, w', f');
  }

  lemma ZeroFraction(f: string, k: nat)
    requires AllDigits(f) && |f| <= k && (f == "" || f[|f| - 1] != '0')
    ensures AllDigits(f + Zeros(k - |f|))
    ensures NatOf(f + Zeros(k - |f|)) == 0 <==> f == ""
  {
    if f == "" {
      assert f + Zeros(k) == Zeros(k);
      NatOfZeros(k);
    } else {
      PositiveFraction(f, k - |f|);
    }
  }

  lemma {:induction false} PositiveFraction(f: string, j: nat)
    requires AllDigits(f) && f != "" && f[|f| - 1] != '0'
    ensures AllDigits(f + Zeros(j)) && NatOf(f + Zeros(j)) > 0
  {
    if j == 0 {
      assert f + Zeros(0) == f;
    } else {
      PositiveFraction(f, j - 1);
      OneMoreZero(f, j - 1);
      assert (f + Zeros(j - 1) + "0")[..|f| + j - 1] == f + Zeros(j - 1);
    }
  }

  lemma PaddedFraction(n: nat)
    requires 0 < n < NANOS_PER_USD
    ensures var f := TrimZeros(Padded(n, FRACTION_DIGITS));
            && f != "" && f[|f| - 1] != '0' && AllDigits(f) && |f| <= FRACTION_DIGITS
            && Padded(n, FRACTION_DIGITS) == f + Zeros(FRACTION_DIGITS - |f|)
            && NatOf(Padded(n, FRACTION_DIGITS)) == n
  {
    var padded := Padded(n, FRACTION_DIGITS);
    TenToTheNine();
    TrimmedThenZeros(padded);
    NatOfPadded(n, FRACTION_DIGITS);
    NatOfZeros(FRACTION_DIGITS);
    assert "" + Zeros(FRACTION_DIGITS) == Zeros(FRACTION_DIGITS);
  }

  function PrintedFraction(v: nat): string {
    if v % NANOS_PER_USD == 0 then "" else TrimZeros(Padded(v % NANOS_PER_USD, FRACTION_DIGITS))
  }

  lemma PrintedFractionValue(v: nat)
    ensures var f := PrintedFraction(v);
            && AllDigits(f) && |f| <= FRACTION_DIGITS && (f == "" || f[|f| - 1] != '0')
            && (f == "" <==> v % NANOS_PER_USD == 0)
            && AllDigits(f + Zeros(FRACTION_DIGITS - |f|))
            && NatOf(f + Zeros(FRACTION_DIGITS - |f|)) == v % NANOS_PER_USD
  {
    if v % NANOS_PER_USD == 0 {
      ZeroFraction("", FRACTION_DIGITS);
    } else {
      PaddedFraction(v % NANOS_PER_USD);
    }
  }

  lemma PrintIsWritten(v: nat)
    ensures var w, f := FormatInt(v / NANOS_PER_USD), PrintedFraction(v);
            && Written(Print(v), w, f) && Nanos(w, f) == v
            && (f == "" || f[|f| - 1] != '0')
  {
    var w, f := FormatInt(v / NANOS_PER_USD), PrintedFraction(v);
    NatOfFormat(v / NANOS_PER_USD);
    PrintedFractionValue(v);
    NanosSplit(w, f);
    SameQuotientAndRemainder(v, Nanos(w, f));
    assert w + "." + f == w + ("." + f) && w + "" == w;
  }

  lemma SameQuotientAndRemainder(v: nat, u: nat)
    requires v / NANOS_PER_USD == u / NANOS_PER_USD && v % NANOS_PER_USD == u % NANOS_PER_USD
    ensures v == u
  {
  }

  /** Reading back what was printed gives the same amount. */
  lemma RoundTrip(v: nat)
    ensures Spells(Print(v), v) && Canonical(Print(v))
  {
    PrintIsWritten(v);
  }

  lemma PrintOfNanos(w: string, f: string)
    requires AllDigits(w) && AllDigits(f) && |f| <= FRACTION_DIGITS
    requires w != "" && (|w| == 1 || w[0] != '0') && (f == "" || f[|f| - 1] != '0')
    ensures FormatInt(Nanos(w, f) / NANOS_PER_USD) == w && PrintedFraction(Nanos(w, f)) == f
  {
    NanosSplit(w, f);
    FormatNatOf(w);
    ZeroFraction(f, FRACTION_DIGITS);
    PaddedTrims(f + Zeros(FRACTION_DIGITS - |f|), FRACTION_DIGITS);
    TrimOfPaddedRight(f, FRACTION_DIGITS - |f|);
  }

  lemma PaddedTrims(s: string, k: nat)
    requires AllDigits(s) && |s| == k
    ensures TrimZeros(Padded(NatOf(s), k)) == TrimZeros(s)
  {
    PaddedNatOf(s);
  }

  /** A canonical string is what its value prints as. */
  lemma CanonicalIsPrinted(s: string, v: nat)
    requires Canonical(s) && Spells(s, v)
    ensures s == Print(v)
  {
    var w, f :| Written(s, w, f) && (f == "" || f[|f| - 1] != '0');
    var w', f' :| Written(s, w', f') && v == Nanos(w', f');
    WrittenIsUnique(s, w, f, w', f');
    PrintOfNanos(w, f);
    ZeroFraction(f, FRACTION_DIGITS);
    NanosSplit(w, f);
  }

  /** Printing the value of an accepted string is its one canonical spelling. */
  lemma PrintCanonicalizes(s: string, v: nat, c: string)
    requires Spells(s, v)
    ensures Canonical(c) && Spells(c, v) <==> c == Print(v)
  {
    RoundTrip(v);
    if Canonical(c) && Spells(c, v) { CanonicalIsPrinted(c, v); }
  }

  // ---------------------------------------------------------------------------------------
  // Amounts below zero
  // ---------------------------------------------------------------------------------------

  /** Go pads a number with zeros to nine characters, the sign included. */
  function NegativeFraction(n: nat): string
    requires 0 < n < NANOS_PER_USD
  {
    "-" + if n < NANOS_PER_USD / 10 then Padded(n, FRACTION_DIGITS - 1) else Padded(n, FRACTION_DIGITS)
  }

  /** What is printed for any int64 amount: division truncates toward zero, so both parts take the sign. */
  function PrintSigned(v: int): string {
    if v >= 0 then Print(v) else
      var whole, fraction := -v / NANOS_PER_USD, -v % NANOS_PER_USD;
      if fraction == 0 then "-" + FormatInt(whole)
      else (if whole == 0 then "0" else "-" + FormatInt(whole)) + "." + TrimZeros(NegativeFraction(fraction))
  }

  lemma TrimKeepsSign(s: string)
    requires s != "" && s[0] == '-'
    ensures TrimZeros(s) != "" && TrimZeros(s)[0] == '-'
  {
    assert s[0] != '0';
  }

  lemma NegativeHasSign(v: int)
    requires v < 0
    ensures '-' in PrintSigned(v)
  {
    var whole, fraction := -v / NANOS_PER_USD, -v % NANOS_PER_USD;
    if fraction == 0 {
      assert PrintSigned(v)[0] == '-';
    } else {
      var front := (if whole == 0 then "0" else "-" + FormatInt(whole)) + ".";
      TrimKeepsSign(NegativeFraction(fraction));
      assert PrintSigned(v)[|front|] == '-';
    }
  }

  lemma SignIsRefused(s: string, v: int)
    requires '-' in s
    ensures !Spells(s, v)
  {
    forall w, f ensures !Written(s, w, f) { }
  }

  lemma NaturalReadsBack(v: nat, u: int)
    ensures Spells(Print(v), u) <==> u == v
  {
    RoundTrip(v);
    if Spells(Print(v), u) { SpellsIsUnique(Print(v), u, v); }
  }

  /** What is printed for an amount is read back as that amount, and exactly when it is not negative. */
  lemma ReadsBackIff(v: int, u: int)
    ensures Spells(PrintSigned(v), u) <==> v >= 0 && u == v
  {
    if v >= 0 {
      NaturalReadsBack(v, u);
    } else {
      NegativeHasSign(v);
      SignIsRefused(PrintSigned(v), u);
    }
  }

  // ---------------------------------------------------------------------------------------
  // Parsing
  // ---------------------------------------------------------------------------------------

  method Split(s: string) returns (parts: seq<string>)
    ensures parts == Parts(s)
  {
    parts := [""];
    for i := 0 to |s|
      invariant parts == Parts(s[..i])
    {
      assert s[..i + 1][..i] == s[..i];
      if s[i] == '.' {
        parts := parts + [""];
      } else {
        parts := parts[|parts| - 1 := parts[|parts| - 1] + [s[i]]];
      }
    }
    assert s[..|s|] == s;
  }

  /** Accepts exactly the strings of the grammar whose value fits int64, with that value. */
  method ParseUSD(s: string) returns (r: Option<int>)
    ensures r.Some? ==> Spells(s, r.value) && 0 <= r.value <= MAX_INT64
    ensures r.None? ==> forall v :: Spells(s, v) ==> v > MAX_INT64
  {
    if s == "" || IsSpace(s[0]) || IsSpace(s[|s| - 1]) {
      RejectUnless(s);
      return None;
    }
    var parts := Split(s);
    PartsJoin(s);
    RejectUnless(s);
    if |parts| > 2 || parts[0] == "" {
      return None;
    }
    for i := 0 to |parts|
      invariant forall j :: 0 <= j < i ==> parts[j] != "" && AllDigits(parts[j])
    {
      if parts[i] == "" {
        return None;
      }
      for k := 0 to |parts[i]|
        invariant forall j :: 0 <= j < k ==> IsDigit(parts[i][j])
      {
        if !IsDigit(parts[i][k]) {
          return None;
        }
      }
    }
    if |parts[0]| > 1 && parts[0][0] == '0' {
      return None;
    }
    var frac := "";
    if |parts| == 2 {
      frac := parts[1];
    }
    if |frac| > FRACTION_DIGITS {
      return None;
    }
    assert Written(s, parts[0], frac);
    var n := NatOf(parts[0] + frac + Zeros(FRACTION_DIGITS - |frac|));
    assert Spells(s, n);
    if n > MAX_INT64 {
      forall v | Spells(s, v) ensures v > MAX_INT64 {
        SpellsIsUnique(s, v, n);
      }
      return None;
    }
    return Some(n);
  }

  /** What any accepted string must look like. */
  lemma RejectUnless(s: string)
    ensures (exists v :: Spells(s, v)) ==>
              var parts := Parts(s);
              && s != "" && !IsSpace(s[0]) && !IsSpace(s[|s| - 1])
              && |parts| <= 2
              && (forall i :: 0 <= i < |parts| ==> parts[i] != "" && AllDigits(parts[i]))
              && (|parts[0]| == 1 || parts[0][0] != '0')
              && (|parts| == 2 ==> |parts[1]| <= FRACTION_DIGITS)
  {
    if v :| Spells(s, v) {
      var w, f :| Written(s, w, f) && v == Nanos(w, f);
      PartsOfWritten(s, w, f);
    }
  }
}
