/** Decimal numerals and the order of strings, as far as the file names of a queue need them. */
module Decimal {

  datatype Option<+T> = None | Some(value: T)

  predicate IsDigit(c: char) {
    '0' <= c <= '9'
  }

  predicate AllDigits(s: string) {
    forall i :: 0 <= i < |s| ==> IsDigit(s[i])
  }

  /** The shortest numeral of n. */
  function Format(n: nat): (s: string)
    ensures s != [] && AllDigits(s)
  {
    if n < 10 then ['0' + n as char] else Format(n / 10) + ['0' + (n % 10) as char]
  }

  function Value(s: string): nat
    requires AllDigits(s)
  {
    if s == [] then 0 else 10 * Value(s[..|s| - 1]) + (s[|s| - 1] - '0') as nat
  }

  lemma {:induction false} ValueOfFormat(n: nat)
    ensures Value(Format(n)) == n
  {
    if n >= 10 {
      ValueOfFormat(n / 10);
      assert Format(n)[..|Format(n)| - 1] == Format(n / 10);
    }
  }

  function Zeros(k: nat): (s: string)
    ensures |s| == k && AllDigits(s)
  {
    seq(k, _ => '0')
  }

  /** Numeral of n, with leading zeros up to the given width; a longer numeral is kept whole. */
  function Pad(width: nat, n: nat): (s: string)
    ensures AllDigits(s) && s != []
  {
    var digits := Format(n);
    if |digits| < width then Zeros(width - |digits|) + digits else digits
  }

  lemma {:induction false} LeadingZeros(k: nat, s: string)
    requires AllDigits(s)
    ensures Value(Zeros(k) + s) == Value(s)
  {
    var t := Zeros(k) + s;
    if s != [] {
      assert t[..|t| - 1] == Zeros(k) + s[..|s| - 1];
      LeadingZeros(k, s[..|s| - 1]);
    } else if k > 0 {
      assert t[..|t| - 1] == Zeros(k - 1) + s;
      LeadingZeros(k - 1, s);
    }
  }

  lemma ValueOfPad(width: nat, n: nat)
    ensures Value(Pad(width, n)) == n
  {
    ValueOfFormat(n);
    if |Format(n)| < width {
      LeadingZeros(width - |Format(n)|, Format(n));
    }
  }

  function Pow10(k: nat): nat {
    if k == 0 then 1 else 10 * Pow10(k - 1)
  }

  lemma {:induction false} FormatFits(width: nat, n: nat)
    requires width > 0 && n < Pow10(width)
    ensures |Format(n)| <= width
  {
    if n >= 10 {
      FormatFits(width - 1, n / 10);
    }
  }

  lemma {:induction false} PowersAndNines(k: nat)
    requires k > 0
    ensures Format(Pow10(k))[0] == '1' && |Format(Pow10(k))| == k + 1
    ensures Format(Pow10(k) - 1)[0] == '9' && |Format(Pow10(k) - 1)| == k
  {
    if k > 1 {
      PowersAndNines(k - 1);
      assert Format(Pow10(k)) == Format(Pow10(k - 1)) + "0";
      assert (Pow10(k) - 1) / 10 == Pow10(k - 1) - 1;
    }
  }

  // ---------- Signed numerals ----------

  function FormatInt(i: int): (s: string)
    ensures s != []
    ensures forall k :: 0 <= k < |s| ==> IsDigit(s[k]) || s[k] == '-'
  {
    if i < 0 then "-" + Format(-i) else Format(i)
  }

  function ParseDigits(s: string): Option<int> {
    if s != [] && AllDigits(s) then Some(Value(s)) else None
  }

  /** An optional sign and at least one digit; no bound on the size. */
  function ParseInt(s: string): Option<int> {
    if s == [] then None
    else if s[0] == '-' || s[0] == '+' then
      var n := ParseDigits(s[1..]);
      if n == None then None else Some(if s[0] == '-' then -n.value else n.value)
    else
      ParseDigits(s)
  }

  lemma ParseOfFormatInt(i: int)
    ensures ParseInt(FormatInt(i)) == Some(i)
  {
    if i < 0 {
      ValueOfFormat(-i);
      assert FormatInt(i)[1..] == Format(-i);
    } else {
      ValueOfFormat(i);
      assert IsDigit(Format(i)[0]);
    }
  }

  // ---------- The order of strings ----------

  /** Byte-wise order of strings: sort.Strings arranges names by it. */
  predicate Less(a: string, b: string) {
    b != [] && (a == [] || a[0] < b[0] || (a[0] == b[0] && Less(a[1..], b[1..])))
  }

  lemma {:induction false} LessIsTotal(a: string, b: string)
    ensures Less(a, b) || Less(b, a) || a == b
    ensures !(Less(a, b) && Less(b, a))
    ensures !Less(a, a)
  {
    if a != [] {
      LessIsTotal(a[1..], a[1..]);
      if b != [] && a[0] == b[0] {
        LessIsTotal(a[1..], b[1..]);
        assert a == [a[0]] + a[1..] && b == [b[0]] + b[1..];
      }
    }
  }

  lemma {:induction false} LessIsTransitive(a: string, b: string, c: string)
    requires Less(a, b) && Less(b, c)
    ensures Less(a, c)
  {
    if a != [] && a[0] == b[0] == c[0] {
      LessIsTransitive(a[1..], b[1..], c[1..]);
    }
  }

  /** The first difference decides; what follows it does not matter. */
  lemma {:induction false} LessByPrefix(a: string, b: string, x: string, y: string)
    requires |a| == |b|
    ensures Less(a + x, b + y) <==> if a == b then Less(x, y) else Less(a, b)
  {
    if a == [] {
      assert a + x == x && b + y == y;
    } else {
      assert (a + x)[1..] == a[1..] + x && (b + y)[1..] == b[1..] + y;
      LessByPrefix(a[1..], b[1..], x, y);
      assert a == [a[0]] + a[1..] && b == [b[0]] + b[1..];
    }
  }

  /** Numerals of one length are ordered as the numbers they stand for. */
  lemma {:induction false} NumeralOrder(a: string, b: string)
    requires |a| == |b| && AllDigits(a) && AllDigits(b)
    ensures Less(a, b) <==> Value(a) < Value(b)
    ensures a == b <==> Value(a) == Value(b)
  {
    if a != [] {
      var k := |a| - 1;
      assert a == a[..k] + a[k..] && b == b[..k] + b[k..];
      NumeralOrder(a[..k], b[..k]);
      LessByPrefix(a[..k], b[..k], a[k..], b[k..]);
      assert Less(a[k..], b[k..]) <==> a[k] < b[k];
    }
  }
}
