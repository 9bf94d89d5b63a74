/** Names of generated clocks, "gclk_{domain}_div_{ratio:03d}"
    (src/nova_rtl/benchmark/constraints.py, src/nova_rtl/benchmark/generator.py). */
module ClockNames {
  import opened Prelude

  predicate IsDigit(c: char) { '0' <= c <= '9' }

  function Digit(n: nat): char
    requires n < 10
  {
    '0' + n as char
  }

  function Decimal(n: nat): string {
    if n < 10 then [Digit(n)] else Decimal(n / 10) + [Digit(n % 10)]
  }

  /** The format specification 03d for a number that is not negative. */
  function Padded(n: nat): string {
    var s := Decimal(n);
    if |s| == 1 then "00" + s else if |s| == 2 then "0" + s else s
  }

  function Value(s: string): nat
    requires forall c :: c in s ==> IsDigit(c)
  {
    if s == "" then 0
    else
      assert IsDigit(s[|s| - 1]);
      Value(s[..|s| - 1]) * 10 + (s[|s| - 1] as int - '0' as int)
  }

  lemma {:induction false} DecimalSpec(n: nat)
    ensures Decimal(n) != "" && forall c :: c in Decimal(n) ==> IsDigit(c)
    ensures Value(Decimal(n)) == n
    ensures |Decimal(n)| == 1 <==> n < 10
    ensures |Decimal(n)| <= 2 <==> n < 100
    ensures |Decimal(n)| <= 3 <==> n < 1000
    ensures n > 0 ==> Decimal(n)[0] != '0'
  {
    if n >= 10 {
      DecimalSpec(n / 10);
      assert Decimal(n)[..|Decimal(n)| - 1] == Decimal(n / 10);
    } else {
      assert Decimal(n)[..0] == "";
    }
  }

  lemma {:induction false} LeadingZero(s: string)
    requires forall c :: c in s ==> IsDigit(c)
    ensures forall c :: c in "0" + s ==> IsDigit(c)
    ensures Value("0" + s) == Value(s)
  {
    if s != "" {
      var t := s[..|s| - 1];
      LeadingZero(t);
      assert ("0" + s)[..|s|] == "0" + t;
    }
  }

  /** The decimal digits of the number, with zeros in front up to three digits and no more. */
  lemma PaddedSpec(n: nat)
    ensures |Padded(n)| >= 3 && (forall c :: c in Padded(n) ==> IsDigit(c)) && Value(Padded(n)) == n
    ensures if n < 1000 then |Padded(n)| == 3 else Padded(n)[0] != '0'
  {
    var s := Decimal(n);
    DecimalSpec(n);
    LeadingZero(s);
    LeadingZero("0" + s);
    assert "00" + s == "0" + ("0" + s);
  }

  lemma PaddedInjective(m: nat, n: nat)
    requires Padded(m) == Padded(n)
    ensures m == n
  {
    PaddedSpec(m);
    PaddedSpec(n);
  }

  const PREFIX := "gclk_"
  const INFIX := "_div_"

  function ClockName(domain: string, ratio: nat): string { PREFIX + domain + INFIX + Padded(ratio) }

  /** If two texts end in digits behind an underscore, equal texts have equal digits. */
  lemma SplitAtLastUnderscore(a: string, s: string, b: string, t: string)
    requires a != "" && a[|a| - 1] == '_' && b != "" && b[|b| - 1] == '_'
    requires (forall c :: c in s ==> IsDigit(c)) && (forall c :: c in t ==> IsDigit(c))
    requires a + s == b + t
    ensures a == b && s == t
  {
    var x := a + s;
    assert x[|a| - 1] == '_' && x[|b| - 1] == '_';
    assert forall i :: |a| <= i < |x| ==> x[i] == s[i - |a|] && s[i - |a|] in s;
    assert forall i :: |b| <= i < |x| ==> x[i] == t[i - |b|] && t[i - |b|] in t;
    assert |a| == |b|;
    assert x[..|a|] == a && (b + t)[..|b|] == b && x[|a|..] == s && (b + t)[|b|..] == t;
  }

  /** No two pairs of domain and ratio share a clock name, whatever the domains are called
      - "_div_" inside a domain name included. */
  lemma ClockNameInjective(d: string, m: nat, e: string, n: nat)
    requires ClockName(d, m) == ClockName(e, n)
    ensures d == e && m == n
  {
    var a, b := PREFIX + d + INFIX, PREFIX + e + INFIX;
    PaddedSpec(m);
    PaddedSpec(n);
    assert a[|a| - 1] == INFIX[4] && b[|b| - 1] == INFIX[4];
    SplitAtLastUnderscore(a, Padded(m), b, Padded(n));
    PaddedInjective(m, n);
    assert a[5..|a| - 5] == d && b[5..|b| - 5] == e;
  }

  // -------------------------------------------------------------------------- EntityId

  predicate IdChar(c: char) { 'a' <= c <= 'z' || IsDigit(c) || c == '_' }

  /** The pattern ^[a-z][a-z0-9_]{2,95}$. */
  predicate EntityId(s: string) {
    3 <= |s| <= 96 && 'a' <= s[0] <= 'z' && forall c :: c in s ==> IdChar(c)
  }

  lemma ClockNameIsEntityId(domain: string, ratio: nat)
    requires EntityId(domain)
    ensures EntityId(ClockName(domain, ratio)) <==> |ClockName(domain, ratio)| <= 96
  {
    PaddedSpec(ratio);
    var name := ClockName(domain, ratio);
    assert name[0] == PREFIX[0];
    forall c | c in name ensures IdChar(c) {
      if c in PREFIX {
        assert IdChar(c);
      } else if c in INFIX {
        assert IdChar(c);
      } else {
        assert c in domain || c in Padded(ratio);
      }
    }
  }
}
