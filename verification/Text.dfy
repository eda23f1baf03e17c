/** Bytes, C strings and the decimal text that the index file uses for numbers. */
module Text {

  type byte = b: int | 0 <= b < 256

  const NUL: byte := 0
  const NEWLINE: byte := 10
  const SPACE: byte := 32
  const PLUS: byte := 43
  const MINUS: byte := 45
  const DIGIT_ZERO: byte := 48

  predicate IsDigit(b: byte) {
    DIGIT_ZERO <= b <= DIGIT_ZERO + 9
  }

  predicate IsSpace(b: byte) {
    b == SPACE || 9 <= b <= 13
  }

  /** The contents of a C string: no NUL inside. */
  predicate CString(s: seq<byte>) {
    NUL !in s
  }

  /** Position of the first c in s, or |s| (strchr and strlen are both this search). */
  function IndexOf(s: seq<byte>, c: byte): (i: nat)
    ensures i <= |s|
    ensures c !in s[..i]
    ensures i < |s| ==> s[i] == c
  {
    if |s| == 0 || s[0] == c then 0 else
      assert forall k | 0 <= k < 1 + IndexOf(s[1..], c) :: s[k] == if k == 0 then s[0] else s[1..][k - 1];
      1 + IndexOf(s[1..], c)
  }

  lemma IndexOfFirst(a: seq<byte>, c: byte, b: seq<byte>)
    requires c !in a
    ensures IndexOf(a + [c] + b, c) == |a|
  {
    var s := a + [c] + b;
    assert s[|a|] == c;
    assert forall k | 0 <= k < |a| :: s[k] == a[k];
    assert IndexOf(s, c) <= |a| by {
      assert forall k | 0 <= k < IndexOf(s, c) :: s[..IndexOf(s, c)][k] == s[k];
    }
  }

  lemma IndexOfAbsent(s: seq<byte>, c: byte)
    requires c !in s
    ensures IndexOf(s, c) == |s|
  {
  }

  /** The C string that starts a buffer. */
  function CutAtNul(s: seq<byte>): (t: seq<byte>)
    ensures CString(t)
    ensures CString(s) ==> t == s
  {
    s[..IndexOf(s, NUL)]
  }

  function Blanks(n: nat): (s: seq<byte>)
    ensures |s| == n && forall i | 0 <= i < n :: s[i] == SPACE
  {
    seq(n, _ => SPACE)
  }

  /** What printf's %d prints for n. */
  function Decimal(n: nat): (s: seq<byte>)
    ensures |s| > 0 && forall i | 0 <= i < |s| :: IsDigit(s[i])
  {
    if n < 10 then [DIGIT_ZERO + n] else Decimal(n / 10) + [DIGIT_ZERO + n % 10]
  }

  /** Right-justify s in a field of width w, as printf's %*d does; longer text is not cut. */
  function Padded(s: seq<byte>, w: nat): (t: seq<byte>)
    ensures |t| == if |s| < w then w else |s|
  {
    if |s| < w then Blanks(w - |s|) + s else s
  }

  /** The number that a run of leading digits adds to acc. */
  function Digits(s: seq<byte>, acc: nat): nat {
    if |s| == 0 || !IsDigit(s[0]) then acc else Digits(s[1..], acc * 10 + (s[0] - DIGIT_ZERO))
  }

  /** atol and atoi: skip white space, one optional sign, then digits. */
  function Atol(s: seq<byte>): int {
    if |s| == 0 then 0
    else if IsSpace(s[0]) then Atol(s[1..])
    else if s[0] == MINUS then -(Digits(s[1..], 0) as int)
    else if s[0] == PLUS then Digits(s[1..], 0)
    else Digits(s, 0)
  }

  lemma {:induction false} DigitsSnoc(s: seq<byte>, d: byte, acc: nat)
    requires forall i | 0 <= i < |s| :: IsDigit(s[i])
    requires IsDigit(d)
    ensures Digits(s + [d], acc) == Digits(s, acc) * 10 + (d - DIGIT_ZERO)
  {
    if |s| == 0 {
      assert Digits([d][1..], acc * 10 + (d - DIGIT_ZERO)) == acc * 10 + (d - DIGIT_ZERO);
    } else {
      assert (s + [d])[1..] == s[1..] + [d];
      DigitsSnoc(s[1..], d, acc * 10 + (s[0] - DIGIT_ZERO));
    }
  }

  lemma {:induction false} DigitsOfDecimal(n: nat)
    ensures Digits(Decimal(n), 0) == n
  {
    if n >= 10 {
      DigitsOfDecimal(n / 10);
      DigitsSnoc(Decimal(n / 10), DIGIT_ZERO + n % 10, 0);
    } else {
      assert Decimal(n)[1..] == [];
    }
  }

  /** atol undoes %d. */
  lemma AtolOfDecimal(n: nat)
    ensures Atol(Decimal(n)) == n
  {
    DigitsOfDecimal(n);
    assert IsDigit(Decimal(n)[0]);
  }

  lemma {:induction false} AtolSkipsBlanks(k: nat, s: seq<byte>)
    ensures Atol(Blanks(k) + s) == Atol(s)
  {
    if k == 0 {
      assert Blanks(0) + s == s;
    } else {
      assert (Blanks(k) + s)[1..] == Blanks(k - 1) + s;
      AtolSkipsBlanks(k - 1, s);
    }
  }

  lemma AtolOfPadded(s: seq<byte>, w: nat)
    ensures Atol(Padded(s, w)) == Atol(s)
  {
    if |s| < w {
      AtolSkipsBlanks(w - |s|, s);
    }
  }

  function Pow10(k: nat): (p: nat)
    ensures p > 0
  {
    if k == 0 then 1 else 10 * Pow10(k - 1)
  }

  /** A number needs at most k columns exactly when it is below 10^k. */
  lemma {:induction false} DecimalWidth(n: nat, k: nat)
    requires k > 0
    ensures |Decimal(n)| <= k <==> n < Pow10(k)
  {
    if n >= 10 {
      if k == 1 {
        assert Pow10(1) == 10 * Pow10(0);
      } else {
        DecimalWidth(n / 10, k - 1);
      }
    } else {
      assert Pow10(k) == 10 * Pow10(k - 1);
    }
  }
}
