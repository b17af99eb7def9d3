/** Small vocabulary shared by the models. */
module Prelude {

  datatype Option<+T> = None | Some(value: T)

  /** A sequence in which no element occurs twice. */
  ghost predicate Distinct<T>(xs: seq<T>) {
    forall i, j :: 0 <= i < j < |xs| ==> xs[i] != xs[j]
  }

  /** `xs` without the first occurrence of `x`. */
  function RemoveFirst<T(==)>(xs: seq<T>, x: T): seq<T> {
    if xs == [] then []
    else if xs[0] == x then xs[1..]
    else [xs[0]] + RemoveFirst(xs[1..], x)
  }

  lemma {:induction false} RemoveFirstMembers<T>(xs: seq<T>, x: T)
    requires Distinct(xs)
    ensures forall y :: y in RemoveFirst(xs, x) <==> y in xs && y != x
  {
    if xs != [] {
      assert xs == [xs[0]] + xs[1..];
      if xs[0] != x {
        RemoveFirstMembers(xs[1..], x);
      } else {
        assert xs[0] !in xs[1..];
      }
    }
  }

  /** Removing the first occurrence removes the element altogether, and nothing else,
      when the sequence had no duplicates. */
  lemma {:induction false} RemoveFirstDistinct<T>(xs: seq<T>, x: T)
    requires Distinct(xs)
    ensures Distinct(RemoveFirst(xs, x))
    ensures forall y :: y in RemoveFirst(xs, x) <==> y in xs && y != x
    ensures x in xs ==> |RemoveFirst(xs, x)| == |xs| - 1
    ensures x !in xs ==> RemoveFirst(xs, x) == xs
  {
    RemoveFirstMembers(xs, x);
    if xs != [] && xs[0] != x {
      var tail := xs[1..];
      assert xs == [xs[0]] + tail;
      assert xs[0] !in tail;
      RemoveFirstDistinct(tail, x);
      var r := RemoveFirst(tail, x);
      assert xs[0] !in r;
      forall i, j | 0 <= i < j < |[xs[0]] + r| ensures ([xs[0]] + r)[i] != ([xs[0]] + r)[j] {}
    }
  }

  lemma NobodyIn<T>(xs: seq<T>)
    ensures xs == [] || exists x :: x in xs
  {
    assert xs == [] || xs[0] in xs;
  }

  /** Decimal digits, as printf's %d prints a non-negative number. */
  function Decimal(n: nat): string {
    if n < 10 then [Digit(n)] else Decimal(n / 10) + [Digit(n % 10)]
  }

  function Digit(d: nat): char
    requires d < 10
  {
    "0123456789"[d]
  }

  function Pow10(k: nat): nat {
    if k == 0 then 1 else 10 * Pow10(k - 1)
  }

  lemma {:induction false} DecimalLength(n: nat, k: nat)
    requires 1 <= k && n < Pow10(k)
    ensures 1 <= |Decimal(n)| <= k
  {
    if n >= 10 {
      DecimalLength(n / 10, k - 1);
    }
  }

  predicate IsDigit(c: char) { '0' <= c <= '9' }

  /** The number that a row of decimal digits stands for. */
  function NumberOf(s: string): int {
    if s == "" then 0 else 10 * NumberOf(s[..|s| - 1]) + (s[|s| - 1] as int - '0' as int)
  }

  /** What is printed reads as the number, and has no zeros in front. */
  lemma {:induction false} DecimalReads(n: nat)
    ensures NumberOf(Decimal(n)) == n && (forall c <- Decimal(n) :: IsDigit(c))
    ensures |Decimal(n)| > 0 && (n > 0 ==> Decimal(n)[0] != '0') && (n == 0 ==> Decimal(n) == "0")
  {
    var s := Decimal(n);
    DigitReads(n % 10);
    if n < 10 {
      assert s[..0] == "";
    } else {
      DecimalReads(n / 10);
      assert s[..|s| - 1] == Decimal(n / 10);
    }
  }

  lemma DigitReads(d: nat)
    requires d < 10
    ensures IsDigit(Digit(d)) && Digit(d) as int - '0' as int == d
  {}
}
