/** Decimal text as the journal stores it: `u64` printing and `str::parse::<u64>`. */
module Decimal {
  import opened Wrappers

  const MAX_U64: nat := 0xFFFF_FFFF_FFFF_FFFF

  function Digit(d: nat): char
    requires d < 10
  {
    ('0' as int + d) as char
  }

  function Print(n: nat): string
  {
    if n < 10 then [Digit(n)] else Print(n / 10) + [Digit(n % 10)]
  }

  predicate AllDigits(s: string)
  {
    forall i | 0 <= i < |s| :: '0' <= s[i] <= '9'
  }

  function Value(s: string): nat
    requires AllDigits(s)
  {
    if |s| == 0 then 0 else Value(s[..|s| - 1]) * 10 + (s[|s| - 1] as int - '0' as int)
  }

  /** Rust's unsigned parse: an optional leading plus, then at least one digit, within 64 bits. */
  function ParseU64(s: string): Option<nat>
  {
    var digits := if |s| > 1 && s[0] == '+' then s[1..] else s;
    if |digits| > 0 && AllDigits(digits) && Value(digits) <= MAX_U64 then Some(Value(digits)) else None
  }

  function Pow10(k: nat): nat
  {
    if k == 0 then 1 else 10 * Pow10(k - 1)
  }

  /** A printed number is nonempty, all digits, has no leading zero, and evaluates to itself. */
  lemma {:induction false} PrintValue(n: nat)
    ensures |Print(n)| > 0 && AllDigits(Print(n)) && Value(Print(n)) == n
    ensures |Print(n)| > 1 ==> Print(n)[0] != '0'
    ensures n > 0 ==> Print(n)[0] != '0'
  {
    if n < 10 {
      assert Print(n)[..0] == [];
    } else {
      PrintValue(n / 10);
      var p := Print(n);
      assert p[..|p| - 1] == Print(n / 10);
      assert AllDigits(p[..|p| - 1]);
    }
  }

  lemma {:induction false} PrintLength(n: nat, k: nat)
    requires k > 0 && n < Pow10(k)
    ensures |Print(n)| <= k
  {
    if n >= 10 {
      PrintLength(n / 10, k - 1);
    }
  }

  /** Every 64-bit number prints in at most twenty characters. */
  lemma PrintFitsU64(n: nat)
    requires n <= MAX_U64
    ensures |Print(n)| <= 20
  {
    assert Pow10(4) == 10000;
    assert Pow10(8) == 100000000;
    assert Pow10(12) == 1000000000000;
    assert Pow10(16) == 10000000000000000;
    assert Pow10(20) == 100000000000000000000;
    PrintLength(n, 20);
  }

  lemma PrintParse(n: nat)
    requires n <= MAX_U64
    ensures ParseU64(Print(n)) == Some(n)
  {
    PrintValue(n);
  }

  lemma {:induction false} ValuePositive(s: string)
    requires AllDigits(s) && |s| > 0 && s[0] != '0'
    ensures Value(s) > 0
  {
    if |s| == 1 {
      assert s[..0] == [];
    } else {
      ValuePositive(s[..|s| - 1]);
    }
  }

  /** Digits without a leading zero are the text of their value. */
  lemma {:induction false} ValuePrints(s: string)
    requires AllDigits(s) && |s| > 0 && (|s| > 1 ==> s[0] != '0')
    ensures Print(Value(s)) == s
  {
    var p, d := s[..|s| - 1], s[|s| - 1] as int - '0' as int;
    assert s == p + [s[|s| - 1]] && Digit(d) == s[|s| - 1];
    if |s| > 1 {
      ValuePositive(p);
      ValuePrints(p);
    }
  }

  /** Without a sign, and without a leading zero, exactly the printed numbers are parsed, each as itself. */
  lemma ParseExact(s: string, n: nat)
    requires |s| > 0 && s[0] != '+' && (|s| > 1 ==> s[0] != '0')
    ensures ParseU64(s) == Some(n) <==> n <= MAX_U64 && s == Print(n)
  {
    PrintValue(n);
    if AllDigits(s) { ValuePrints(s); }
  }
}
