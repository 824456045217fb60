/** The pieces of Java's semantics the controller relies on: `int`, a void call that
    returns or throws, `String.trim` and `String.format("%s-%d", ...)`. */
module Java {
  import Decimal

  const Int32Min: int := -0x8000_0000
  const Int32Max: int := 0x7fff_ffff

  /** x fits in a Java `int`. */
  predicate IsInt32(x: int) {
    Int32Min <= x <= Int32Max
  }

  /** Two's-complement wrap-around of a mathematical integer into a Java `int`. */
  function WrapInt32(x: int): (r: int)
    ensures IsInt32(r)
    ensures IsInt32(x) ==> r == x
    ensures (r - x) % 0x1_0000_0000 == 0
  {
    (x - Int32Min) % 0x1_0000_0000 + Int32Min
  }

  /** How a call of a `void` method completes: normally, or by throwing an exception
      whose message is given. */
  datatype Outcome = Returned | Threw(message: string)

  /** `String.trim`: drops every leading and trailing character at or below U+0020. */
  function Trim(s: string): string {
    TrimEnd(TrimStart(s))
  }

  function TrimStart(s: string): string {
    if s != [] && s[0] <= ' ' then TrimStart(s[1..]) else s
  }

  function TrimEnd(s: string): string {
    if s != [] && s[|s| - 1] <= ' ' then TrimEnd(s[..|s| - 1]) else s
  }

  /** TrimStart removes a prefix of characters at or below U+0020 and stops at the first
      character above it. */
  lemma {:induction false} TrimStartDropsSpace(s: string)
    ensures |TrimStart(s)| <= |s| && TrimStart(s) == s[|s| - |TrimStart(s)|..]
    ensures TrimStart(s) != [] ==> TrimStart(s)[0] > ' '
    ensures forall i :: 0 <= i < |s| - |TrimStart(s)| ==> s[i] <= ' '
  {
    if s != [] && s[0] <= ' ' {
      TrimStartDropsSpace(s[1..]);
    }
  }

  /** TrimEnd removes a suffix of characters at or below U+0020 and stops at the last
      character above it. */
  lemma {:induction false} TrimEndDropsSpace(s: string)
    ensures |TrimEnd(s)| <= |s| && TrimEnd(s) == s[..|TrimEnd(s)|]
    ensures TrimEnd(s) != [] ==> TrimEnd(s)[|TrimEnd(s)| - 1] > ' '
    ensures forall i :: |TrimEnd(s)| <= i < |s| ==> s[i] <= ' '
  {
    if s != [] && s[|s| - 1] <= ' ' {
      TrimEndDropsSpace(s[..|s| - 1]);
    }
  }

  /** Trimming leaves nothing exactly when every character is at or below U+0020. */
  lemma TrimEmptyIffAllSpace(s: string)
    ensures Trim(s) == [] <==> forall i :: 0 <= i < |s| ==> s[i] <= ' '
  {
    var t := TrimStart(s);
    TrimStartDropsSpace(s);
    TrimEndDropsSpace(t);
    if Trim(s) != [] {
      assert Trim(s)[0] == t[0] == s[|s| - |t|];
    }
  }

  /** `String.format("%s-%d", prefix, i)`. */
  function FormatSuffixed(prefix: string, i: int): string {
    prefix + "-" + Decimal.FormatInt(i)
  }

  /** `String.format("%s-%d", prefix, Integer.MIN_VALUE)`: two minus signs in a row. */
  lemma FormatSuffixedMinValue(prefix: string, i: int)
    requires i == Int32Min
    ensures FormatSuffixed(prefix, i) == prefix + "--2147483648"
  {
    var digits := Decimal.FormatInt(i);
    Decimal.FormatIntMinValue(i);
    assert digits == "-2147483648";
    assert FormatSuffixed(prefix, i) == prefix + "-" + digits;
  }

  /** Two suffixed strings with the same prefix agree only when their indices do. */
  lemma FormatSuffixedInjective(prefix: string, i: int, j: int)
    ensures i != j ==> FormatSuffixed(prefix, i) != FormatSuffixed(prefix, j)
  {
    var n := |prefix| + 1;
    assert FormatSuffixed(prefix, i)[n..] == Decimal.FormatInt(i);
    assert FormatSuffixed(prefix, j)[n..] == Decimal.FormatInt(j);
    Decimal.FormatIntInjective(i, j);
  }
}
