/** Printing and parsing of integers (lib/tstdlib.c). */
module Numerals {
  import opened Basics

  /** The value of a digit, or -1. */
  function A2d(ch: char): (d: int)
    ensures -1 <= d < 16
  {
    if '0' <= ch <= '9' then ch as int - '0' as int
    else if 'a' <= ch <= 'f' then ch as int - 'a' as int + 10
    else if 'A' <= ch <= 'F' then ch as int - 'A' as int + 10
    else -1
  }

  function DigitChar(d: nat): char
    requires d < 16
  {
    if d < 10 then '0' + d as char else 'a' + (d - 10) as char
  }

  lemma DigitCharValue(d: nat)
    requires d < 16
    ensures A2d(DigitChar(d)) == d
    ensures DigitChar(d) == '0' <==> d == 0
  {
  }

  /** The number that a string of digits denotes. */
  function ValueOf(s: string, base: nat): int {
    if s == [] then 0 else ValueOf(s[..|s| - 1], base) * base + A2d(s[|s| - 1])
  }

  ghost predicate AllDigits(s: string, max: int) {
    forall i :: 0 <= i < |s| ==> 0 <= A2d(s[i]) <= max
  }

  /** The digits are 0 to 9 and a to f, read in either case. */
  lemma DigitsAre(ch: char, d: nat)
    ensures A2d(ch) == d <==> d < 16 && (ch == "0123456789abcdef"[d] || ch == "0123456789ABCDEF"[d])
    ensures d < 16 ==> DigitChar(d) == "0123456789abcdef"[d]
  {
  }

  /** Digits as ui2a writes them: below the base, letters in lower case. */
  ghost predicate ProperDigits(s: string, base: nat) {
    forall i :: 0 <= i < |s| ==> 0 <= A2d(s[i]) < base && s[i] == DigitChar(A2d(s[i]))
  }

  /** `s` is how `num` is written: nonempty, digits below the base, no leading zero. */
  ghost predicate IsNumeral(s: string, base: nat, num: nat) {
    && s != []
    && ProperDigits(s, base)
    && (s[0] == '0' ==> |s| == 1)
    && ValueOf(s, base) == num
  }

  function NumDigits(num: nat, base: nat): (n: nat)
    requires base >= 2
    ensures n >= 1
  {
    if num < base then 1 else DivShrinks(num, base); 1 + NumDigits(num / base, base)
  }

  lemma DivShrinks(num: nat, base: nat)
    requires 2 <= base <= num
    ensures num / base < num
  {
    var q := num / base;
    assert num == q * base + num % base;
    MulMonotone(2, base, q);
  }

  ghost function Pow(base: nat, k: nat): nat {
    if k == 0 then 1 else base * Pow(base, k - 1)
  }

  lemma {:induction false} MulMonotone(a: nat, b: nat, c: nat)
    requires a <= b
    ensures a * c <= b * c
  {
    if c > 0 {
      MulMonotone(a, b, c - 1);
    }
  }

  lemma Distribute(a: nat, b: nat, c: nat)
    ensures (a + b) * c == a * c + b * c
  {
  }

  lemma Reassociate(a: nat, b: nat, c: nat)
    ensures (a * b) * c == a * (b * c)
  {
  }

  /** Quotient and remainder are unique. */
  lemma DivMul(a: nat, b: nat, q: nat, r: nat)
    requires b > 0 && a == q * b + r && r < b
    ensures a / b == q && a % b == r
  {
    var q', r' := a / b, a % b;
    assert a == q' * b + r' && 0 <= r' < b;
    if q' > q {
      MulMonotone(q + 1, q', b);
      Distribute(q, 1, b);
    } else if q' < q {
      MulMonotone(q' + 1, q, b);
      Distribute(q', 1, b);
    }
  }

  lemma QuotientOfQuotient(d: nat, b: nat, q: nat, r: nat, r': nat)
    ensures (q * b + r') * d + r == q * (d * b) + (r' * d + r)
  {
    Distribute(q * b, r', d);
    Reassociate(q, b, d);
  }

  lemma RemainderOfQuotient(d: nat, b: nat, r: nat, r': nat)
    requires r < d && r' < b
    ensures r' * d + r < d * b
  {
    MulMonotone(r' + 1, b, d);
    Distribute(r', 1, d);
  }

  /** Dividing twice is dividing by the product. */
  lemma DivDiv(n: nat, d: nat, b: nat)
    requires d > 0 && b > 0 && d * b > 0
    ensures (n / d) / b == n / (d * b)
  {
    var r, q, r' := n % d, (n / d) / b, (n / d) % b;
    QuotientOfQuotient(d, b, q, r, r');
    RemainderOfQuotient(d, b, r, r');
    DivMul(n, d * b, q, r' * d + r);
  }

  /** One digit further: the written part and the rest still make up the whole number. */
  lemma DigitStep(v: nat, d: nat, num: nat, base: nat, total: nat)
    requires d > 0 && v * (d * base) + num == total && num < d * base
    ensures num / d < base
    ensures (v * base + num / d) * d + num % d == total
  {
    var q, r := num / d, num % d;
    assert num == q * d + r;
    if q >= base {
      MulMonotone(base, q, d);
    } else {
      Distribute(v * base, q, d);
      Reassociate(v, base, d);
    }
  }

  lemma PowDiv(base: nat, k: nat)
    requires base > 1
    ensures Pow(base, k) / base == if k == 0 then 0 else Pow(base, k - 1)
    ensures Pow(base, k) > 0
    ensures k > 0 ==> Pow(base, k) == Pow(base, k - 1) * base
  {
    if k > 0 {
      PowDiv(base, k - 1);
      DivMul(Pow(base, k), base, Pow(base, k - 1), 0);
    }
  }

  lemma {:induction false} ValueNonnegative(s: string, base: nat)
    requires AllDigits(s, base)
    ensures ValueOf(s, base) >= 0
  {
    if s != [] {
      ValueNonnegative(s[..|s| - 1], base);
      MulMonotone(0, ValueOf(s[..|s| - 1], base), base);
    }
  }

  lemma ValueOfAppend(s: string, c: char, base: nat)
    ensures ValueOf(s + [c], base) == ValueOf(s, base) * base + A2d(c)
  {
    assert (s + [c])[..|s|] == s;
  }

  lemma WeightFits(num: nat, d: nat, base: nat)
    requires d > 0 && base >= 2 && num / d >= base
    ensures d < d * base <= num
  {
    MulMonotone(base, num / d, d);
    MulMonotone(2, base, d);
    assert num == (num / d) * d + num % d;
  }

  lemma HigherWeight(num: nat, d: nat, k: nat, base: nat)
    requires base >= 2 && d > 0 && num / d >= base
    requires d == Pow(base, k) && NumDigits(num, base) == k + NumDigits(num / d, base)
    ensures d < d * base <= num
    ensures d * base == Pow(base, k + 1) && NumDigits(num, base) == k + 1 + NumDigits(num / (d * base), base)
  {
    hide NumDigits, Pow;
    WeightFits(num, d, base);
    DivDiv(num, d, base);
    OneDigitMore(num / d, base);
    PowNext(base, k);
  }

  lemma OneDigitMore(q: nat, base: nat)
    requires 2 <= base <= q
    ensures NumDigits(q, base) == 1 + NumDigits(q / base, base)
  {
  }

  lemma PowNext(base: nat, k: nat)
    ensures Pow(base, k + 1) == Pow(base, k) * base
  {
  }

  /** The weight of the leading digit, found without overflow. */
  method LeadingWeight(num: nat, base: nat) returns (d: nat, ghost k: nat)
    requires num < UINT32_RANGE && 2 <= base <= 16
    ensures d == Pow(base, k) && k + 1 == NumDigits(num, base)
    ensures 0 < d < UINT32_RANGE && num / d < base
  {
    d := 1;
    k := 0;
    while num / d >= base
      invariant d == Pow(base, k) && 0 < d < UINT32_RANGE
      invariant NumDigits(num, base) == k + NumDigits(num / d, base)
      decreases UINT32_RANGE - d
    {
      HigherWeight(num, d, k, base);
      d := d * base;
      k := k + 1;
    }
  }

  /** Digits of value `v`, the last of weight `w`, and a rest below `w` make up `num`. */
  ghost predicate Accounts(v: int, w: nat, rest: nat, num: nat) {
    v >= 0 && v * w + rest == num && rest < w
  }

  /** Splitting off the next digit. */
  lemma NextDigit(v: int, base: nat, d: nat, rest: nat, num: nat)
    requires d > 0 && Accounts(v, d * base, rest, num)
    ensures 0 <= rest / d < base && 0 <= rest % d < d
    ensures Accounts(v * base + rest / d, d, rest % d, num)
  {
    DigitStep(v, d, rest, base, num);
    MulMonotone(0, v, base);
  }

  /** A partly written numeral: no leading zero, unless it is the whole of it. */
  ghost predicate Written(s: string, base: nat, w: nat, rest: nat, num: nat, complete: bool) {
    && ProperDigits(s, base)
    && Accounts(ValueOf(s, base), w, rest, num)
    && (s != [] && s[0] == '0' ==> |s| == 1 && complete)
    && (complete ==> s != [])
  }

  lemma NothingWritten(base: nat, d: nat, num: nat)
    requires d > 0 && num / d < base
    ensures Written([], base, d * base, num, num, false)
  {
    var q := num / d;
    assert num == q * d + num % d;
    MulMonotone(q + 1, base, d);
    Distribute(q, 1, d);
  }

  lemma AllWritten(s: string, base: nat, rest: nat, num: nat)
    requires base >= 2 && Written(s, base, 1, rest, num, true)
    ensures IsNumeral(s, base, num)
  {
  }

  /** The next digit is written, or skipped because it would be a leading zero. */
  lemma AdvanceDigits(s: string, base: nat, d: nat, rest: nat, num: nat, last: bool)
    requires 2 <= base <= 16 && d > 0 && Written(s, base, d * base, rest, num, false)
    ensures 0 <= rest / d < base && 0 <= rest % d < d
    ensures Written(if s != [] || rest / d > 0 || last then s + [DigitChar(rest / d)] else s, base, d, rest % d, num, last)
  {
    hide Accounts, ValueOf;
    NextDigit(ValueOf(s, base), base, d, rest, num);
    if s != [] || rest / d > 0 || last {
      AppendDigit(s, rest / d, base);
    } else {
      EmptyValue(base);
      assert ValueOf(s, base) * base + rest / d == 0;
    }
  }

  lemma EmptyValue(base: nat)
    ensures ValueOf([], base) == 0 && ValueOf([], base) * base == 0
  {
  }

  lemma AppendDigit(s: string, q: nat, base: nat)
    requires 2 <= base <= 16 && q < base && ProperDigits(s, base)
    ensures ProperDigits(s + [DigitChar(q)], base)
    ensures ValueOf(s + [DigitChar(q)], base) == ValueOf(s, base) * base + q
    ensures DigitChar(q) == '0' <==> q == 0
  {
    DigitCharValue(q);
    ValueOfAppend(s, DigitChar(q), base);
  }

  lemma NextWeight(base: nat, k: nat)
    requires base >= 2
    ensures var d := Pow(base, k);
            && 0 <= d / base < d
            && (if k == 0 then d == 1 && d / base == 0 else d / base == Pow(base, k - 1) > 0 && d == d / base * base)
  {
    PowDiv(base, k);
    if k > 0 {
      PowDiv(base, k - 1);
      MulMonotone(2, base, Pow(base, k - 1));
    }
  }

  /** Writes `num` and a terminating NUL from index `at` on; `n` is the number of digits. */
  method Ui2a(num: nat, base: nat, bf: array<char>, at: nat) returns (n: nat)
    requires num < UINT32_RANGE && 2 <= base <= 16
    requires at + NumDigits(num, base) + 1 <= bf.Length
    modifies bf
    ensures n <= NumDigits(num, base)
    ensures IsNumeral(bf[at..at + n], base, num)
    ensures bf[at + n] == '\0'
    ensures bf[..at] == old(bf[..at])
  {
    hide Written, NumDigits, Pow, IsNumeral, ValueOf;
    var d, k := LeadingWeight(num, base);
    var rest: nat := num;
    n := 0;
    ghost var s: string := [];
    ghost var w := d * base;
    NothingWritten(base, d, num);
    while d != 0
      invariant n + (if d == 0 then 0 else k + 1) <= NumDigits(num, base)
      invariant if d == 0 then w == 1 else d == Pow(base, k) && w == d * base
      invariant n == |s| && bf[at..at + n] == s && Written(s, base, w, rest, num, d == 0)
      invariant bf[..at] == old(bf[..at])
      decreases d
    {
      AdvanceDigits(s, base, d, rest, num, k == 0);
      NextWeight(base, k);
      var dgt: nat := rest / d;
      w := d;
      rest := rest % d;
      d := d / base;
      if n > 0 || dgt > 0 || d == 0 {
        bf[at + n] := DigitChar(dgt);
        n := n + 1;
        s := s + [DigitChar(dgt)];
      }
      k := if k > 0 then k - 1 else 0;
    }
    AllWritten(s, base, rest, num);
    bf[at + n] := '\0';
    assert bf[at..at + n] == s;
  }

  /** The digits at the front of `s`, none of them above `max`. */
  ghost function DigitPrefix(s: string, max: int): (r: string)
    ensures r <= s && AllDigits(r, max)
    ensures |r| < |s| ==> !(0 <= A2d(s[|r|]) <= max)
  {
    if s != [] && 0 <= A2d(s[0]) <= max then [s[0]] + DigitPrefix(s[1..], max) else []
  }

  lemma {:induction false} PrefixIsLongest(s: string, max: int, r: string)
    requires r <= s && AllDigits(r, max) && (|r| < |s| ==> !(0 <= A2d(s[|r|]) <= max))
    ensures DigitPrefix(s, max) == r
  {
    if r != [] {
      assert s[0] == r[0];
      PrefixIsLongest(s[1..], max, r[1..]);
    }
  }

  lemma {:induction false} ValueMonotone(s: string, k: nat, base: nat)
    requires k <= |s| && base >= 1 && AllDigits(s, base)
    ensures 0 <= ValueOf(s[..k], base) <= ValueOf(s, base)
  {
    ValueNonnegative(s[..k], base);
    if k < |s| {
      var t := s[..|s| - 1];
      ValueMonotone(t, k, base);
      assert t[..k] == s[..k];
      MulMonotone(1, base, ValueOf(t, base));
    } else {
      assert s[..k] == s;
    }
  }

  /** What a2i is given: the character already read and the text from index `p` on. */
  ghost function Input(ch: char, text: string, p: nat): string
    requires p <= |text|
  {
    [ch] + text[p..]
  }

  /** Reads a number; the first character is already in `ch`, the next one at index `p`. Characters whose
      value is at most the base are taken as digits, the base itself included. */
  method A2i(ch: char, text: string, p: nat, base: nat) returns (next: char, p': nat, num: int)
    requires p <= |text| && base >= 1
    requires |DigitPrefix(Input(ch, text, p), base)| < |Input(ch, text, p)|
    ensures var digits := DigitPrefix(Input(ch, text, p), base);
            && p' == p + |digits|
            && next == Input(ch, text, p)[|digits|]
            && (ValueOf(digits, base) <= INT32_MAX ==> num == ValueOf(digits, base))
  {
    hide A2d, Wrap32, DigitPrefix;
    ghost var all := Input(ch, text, p);
    ghost var digits := DigitPrefix(all, base);
    ghost var i := 0;
    next, p', num := ch, p, 0;
    while A2d(next) >= 0
      invariant i <= |digits| && p' == p + i && next == all[i]
      invariant ValueOf(digits, base) <= INT32_MAX ==> num == ValueOf(digits[..i], base)
      decreases |digits| - i
    {
      var digit := A2d(next);
      if digit > base {
        break;
      }
      assert i < |digits| && next == digits[i];
      ReadDigit(digits, i, base);
      num := Wrap32(num * base + digit);
      next := text[p'];
      p' := p' + 1;
      i := i + 1;
    }
    assert i == |digits| && digits[..i] == digits;
  }

  lemma ReadDigit(digits: string, i: nat, base: nat)
    requires i < |digits| && base >= 1 && AllDigits(digits, base)
    ensures ValueOf(digits[..i + 1], base) == ValueOf(digits[..i], base) * base + A2d(digits[i])
    ensures ValueOf(digits, base) <= INT32_MAX ==> Wrap32(ValueOf(digits[..i + 1], base)) == ValueOf(digits[..i + 1], base)
  {
    assert digits[..i + 1] == digits[..i] + [digits[i]];
    ValueOfAppend(digits[..i], digits[i], base);
    ValueMonotone(digits, i + 1, base);
  }

  /** A printed number, NUL included, is read as the whole of its digits. */
  lemma NumeralIsPrefix(s: string, base: nat, num: nat, rest: string)
    requires IsNumeral(s, base, num)
    ensures DigitPrefix(s + ['\0'] + rest, base) == s
  {
    PrefixIsLongest(s + ['\0'] + rest, base, s);
  }

  /** a2i reads back what ui2a wrote, for every number that an `int` holds. */
  method PrintThenParse(num: nat, base: nat, bf: array<char>) returns (back: int, n: nat)
    requires num <= INT32_MAX && 2 <= base <= 16 && NumDigits(num, base) + 1 <= bf.Length
    modifies bf
    ensures back == num && n <= NumDigits(num, base)
  {
    n := Ui2a(num, base, bf, 0);
    ghost var s := bf[0..n];
    assert bf[..] == s + ['\0'] + bf[n + 1..];
    NumeralIsPrefix(s, base, num, bf[n + 1..]);
    assert Input(bf[0], bf[..], 1) == bf[..];
    var next, p', num' := A2i(bf[0], bf[..], 1, base);
    back := num';
  }

  lemma {:induction false} NoLeadingZeroIsPositive(s: string, base: nat)
    requires s != [] && ProperDigits(s, base) && s[0] != '0'
    ensures ValueOf(s, base) >= 1
  {
    if |s| == 1 {
      assert s[..0] == [];
    } else {
      var t := s[..|s| - 1];
      NoLeadingZeroIsPositive(t, base);
      MulMonotone(1, ValueOf(t, base), base);
    }
  }

  /** There is only one way to write a number, so the contract of ui2a leaves it no choice. */
  lemma {:induction false} NumeralIsUnique(s: string, s': string, base: nat, num: nat)
    requires base >= 2 && IsNumeral(s, base, num) && IsNumeral(s', base, num)
    ensures s == s'
    decreases |s|
  {
    var t, t' := s[..|s| - 1], s'[..|s'| - 1];
    var d, d' := A2d(s[|s| - 1]), A2d(s'[|s'| - 1]);
    ValueNonnegative(t, base);
    ValueNonnegative(t', base);
    DivMul(num, base, ValueOf(t, base), d);
    DivMul(num, base, ValueOf(t', base), d');
    assert s == t + [s[|s| - 1]] && s' == t' + [s'[|s'| - 1]];
    if t != [] {
      NoLeadingZeroIsPositive(t, base);
    }
    if t' != [] {
      NoLeadingZeroIsPositive(t', base);
    }
    if t != [] && t' != [] {
      NumeralIsUnique(t, t', base, ValueOf(t, base));
    }
  }

  /** Where a2i reads on: a character whose value is the base itself, as in "1a" read in base ten. */
  lemma BaseTakenAsDigit(s: string, base: nat)
    requires base >= 1
    ensures var strict := DigitPrefix(s, base - 1);
            DigitPrefix(s, base) == strict <==> |strict| == |s| || A2d(s[|strict|]) != base
  {
    var strict := DigitPrefix(s, base - 1);
    if |strict| == |s| || A2d(s[|strict|]) != base {
      PrefixIsLongest(s, base, strict);
    }
  }

  lemma BaseTakenAsDigitExample()
    ensures DigitPrefix("1a", 10) == "1a" && ValueOf("1a", 10) == 20
    ensures DigitPrefix("1a", 9) == "1"
  {
    PrefixIsLongest("1a", 10, "1a");
    PrefixIsLongest("1a", 9, "1");
    assert "1a"[..1] == "1";
    assert "1"[..0] == "";
  }

  lemma {:induction false} DigitsBound(num: nat, base: nat, k: nat)
    requires base >= 2 && k >= 1 && num < Pow(base, k)
    ensures NumDigits(num, base) <= k
    decreases k
  {
    if num >= base {
      assert k > 1;
      var q := num / base;
      assert num == q * base + num % base;
      if q >= Pow(base, k - 1) {
        MulMonotone(Pow(base, k - 1), q, base);
      }
      DigitsBound(q, base, k - 1);
    }
  }

  /** The longest output of i2a: sign, ten digits and NUL. */
  const I2A_BUFFER := 12

  lemma TenDigits(num: nat)
    requires num <= INT32_MAX + 1
    ensures NumDigits(num, 10) <= 10
  {
    assert Pow(10, 5) == 100_000;
    assert Pow(10, 10) == 10_000_000_000;
    DigitsBound(num, 10, 10);
  }

  /** The unsigned number that i2a passes on: negating the least `int` overflows back to itself, and
      reading it as unsigned gives its absolute value all the same. */
  function Magnitude(num: int): int {
    (if num < 0 then Wrap32(-num) else num) % UINT32_RANGE
  }

  lemma MagnitudeIsAbsolute(num: int)
    requires -INT32_MAX - 1 <= num <= INT32_MAX
    ensures Magnitude(num) == if num < 0 then -num else num
  {
  }

  method I2a(num: int, bf: array<char>) returns (n: nat)
    requires -INT32_MAX - 1 <= num <= INT32_MAX && bf.Length >= I2A_BUFFER
    modifies bf
    ensures n < I2A_BUFFER && bf[n] == '\0'
    ensures num < 0 ==> n > 0 && bf[0] == '-' && IsNumeral(bf[1..n], 10, -num)
    ensures num >= 0 ==> IsNumeral(bf[..n], 10, num)
  {
    MagnitudeIsAbsolute(num);
    TenDigits(Magnitude(num));
    if num < 0 {
      bf[0] := '-';
      var k := Ui2a(Magnitude(num), 10, bf, 1);
      assert bf[..1][0] == '-';
      return k + 1;
    }
    n := Ui2a(Magnitude(num), 10, bf, 0);
    assert bf[0..n] == bf[..n];
  }
}
