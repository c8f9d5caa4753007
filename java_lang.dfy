/** The few pieces of Java's language semantics the watermarking core leans on:
    32-bit `int` arithmetic (wrap-around, division truncating toward zero),
    nullable references as `Option`, and the `String` methods the core calls
    (`lastIndexOf`, `toLowerCase`, `equalsIgnoreCase`, `endsWith`). */
module JavaLang {

  /** A Java reference that may be `null`. */
  datatype Option<T> = None | Some(value: T)

  const INT_MIN: int := -0x8000_0000
  const INT_MAX: int := 0x7FFF_FFFF
  const TWO_TO_32: int := 0x1_0000_0000

  /** The values of a Java `int`. */
  type Int32 = x: int | INT_MIN <= x <= INT_MAX

  function Abs(x: int): (r: int)
    ensures 0 <= r && (r == x || r == -x)
  {
    if x < 0 then -x else x
  }

  /** The 32-bit two's complement value Java keeps of a mathematical result. */
  function Wrap(x: int): (r: Int32)
    ensures (r - x) % TWO_TO_32 == 0
    ensures INT_MIN <= x <= INT_MAX ==> r == x
  {
    (x - INT_MIN) % TWO_TO_32 + INT_MIN
  }

  /** Java `a + b` on `int`. */
  function Add(a: Int32, b: Int32): (r: Int32)
    ensures INT_MIN <= a + b <= INT_MAX ==> r == a + b
  {
    Wrap(a + b)
  }

  /** Java `a - b` on `int`. */
  function Sub(a: Int32, b: Int32): (r: Int32)
    ensures INT_MIN <= a - b <= INT_MAX ==> r == a - b
  {
    Wrap(a - b)
  }

  /** Java `a * b` on `int`. */
  function Mul(a: Int32, b: Int32): (r: Int32)
    ensures INT_MIN <= a * b <= INT_MAX ==> r == a * b
  {
    Wrap(a * b)
  }

  /** Integer division by a positive divisor, rounding toward zero as Java
      defines it (section 15.17.2 of the Java Language Specification): the
      remainder `a - q * d` is smaller than `d` in magnitude and has the sign
      of `a`. Dafny's own `/` is Euclidean and rounds down for negative `a`.
      Every division in the watermarking core is by a positive constant. */
  function TruncDiv(a: int, d: int): (q: int)
    requires 0 < d
    ensures 0 <= a ==> 0 <= a - q * d < d
    ensures a < 0 ==> -d < a - q * d <= 0
  {
    if 0 <= a then a / d
    else
      var m := (-a) / d;
      assert -a == m * d + (-a) % d;
      -m
  }

  /** Multiplying by a factor of at least one does not shrink a positive number. */
  lemma {:induction false} MulAtLeast(k: int, d: int)
    requires 1 <= k && 0 < d
    ensures d <= k * d
    decreases k
  {
    if k > 1 {
      MulAtLeast(k - 1, d);
      assert k * d == (k - 1) * d + d;
    }
  }

  lemma DivShrinks(n: int, d: int)
    requires 0 <= n && 0 < d
    ensures 0 <= n / d <= n
  {
    var q := n / d;
    assert n == q * d + n % d;
    if q > 0 {
      MulAtLeast(d, q);
    }
  }

  /** The remainder conditions pin the truncated quotient down: any `q` that
      meets them is `TruncDiv(a, d)`. */
  lemma TruncDivUnique(a: int, d: int, q: int)
    requires 0 < d
    requires 0 <= a ==> 0 <= a - q * d < d
    requires a < 0 ==> -d < a - q * d <= 0
    ensures q == TruncDiv(a, d)
  {
    var p := TruncDiv(a, d);
    // Both remainders lie in one half-open interval of width d, so the
    // quotients differ by less than one.
    assert -d < (p - q) * d < d;
    if p - q >= 1 {
      MulAtLeast(p - q, d);
    } else if q - p >= 1 {
      MulAtLeast(q - p, d);
    }
  }

  /** Java `a / d` on `int` for a positive divisor (which cannot overflow). */
  function Div(a: Int32, d: Int32): (r: Int32)
    requires 0 < d
    ensures r == TruncDiv(a, d)
  {
    DivShrinks(Abs(a), d);
    TruncDiv(a, d)
  }

  /** `Character.toLowerCase` restricted to ASCII letters. */
  function LowerChar(c: char): char
  {
    if 'A' <= c <= 'Z' then (c as int + 32) as char else c
  }

  /** `String.toLowerCase`, folding ASCII letters only. */
  function ToLowerCase(s: string): (r: string)
    ensures |r| == |s|
    ensures forall i :: 0 <= i < |s| ==> r[i] == LowerChar(s[i])
  {
    seq(|s|, i requires 0 <= i < |s| => LowerChar(s[i]))
  }

  /** `String.equalsIgnoreCase`, folding ASCII letters only. */
  predicate EqualsIgnoreCase(a: string, b: string)
  {
    |a| == |b| && ToLowerCase(a) == ToLowerCase(b)
  }

  /** A string without upper-case ASCII letters is its own lower case. */
  lemma LowerCaseFixed(s: string)
    requires forall i :: 0 <= i < |s| ==> !('A' <= s[i] <= 'Z')
    ensures ToLowerCase(s) == s
  {
  }

  /** `String.endsWith`. */
  predicate EndsWith(s: string, suffix: string)
  {
    |suffix| <= |s| && s[|s| - |suffix|..] == suffix
  }

  /** `String.lastIndexOf(c)`: the index of the last occurrence of `c`, or -1. */
  function LastIndexOf(s: string, c: char): (r: int)
    ensures -1 <= r < |s|
    ensures 0 <= r ==> s[r] == c
    ensures forall i :: r < i < |s| ==> s[i] != c
  {
    if |s| == 0 then -1
    else if s[|s| - 1] == c then |s| - 1
    else LastIndexOf(s[..|s| - 1], c)
  }
}
