/** Descriptors handed out lowest free number first, two at a time. `taken` are the numbers that
    are in use for good, whichever they are. */
module LowestNumbers {

  /** How many numbers below n are not taken. */
  function Rank(taken: set<int>, n: nat): nat {
    if n == 0 then 0 else Rank(taken, n - 1) + if n - 1 in taken then 0 else 1
  }

  /** The numbers that are not taken, in ascending order, two by two: a and b are such a two. */
  ghost predicate Mates(taken: set<int>, a: int, b: int) {
    0 <= a && 0 <= b && a != b && a !in taken && b !in taken && Rank(taken, a) / 2 == Rank(taken, b) / 2
  }

  /** What accept() and socket() return. */
  ghost predicate LowestFree(taken: set<int>, open: set<int>, n: int) {
    n >= 0 && n !in taken && n !in open && forall m :: 0 <= m < n ==> m in taken || m in open
  }

  /** Open numbers come in twos. */
  ghost predicate InTwos(taken: set<int>, open: set<int>) {
    && (forall a :: a in open ==> a >= 0 && a !in taken)
    && (forall a, b :: a in open && Mates(taken, a, b) ==> b in open)
  }

  /* ---- Ranks ---- */

  lemma {:induction false} RankMonotone(taken: set<int>, a: nat, b: nat)
    requires a <= b
    ensures Rank(taken, a) <= Rank(taken, b)
    ensures a < b && a !in taken ==> Rank(taken, a) < Rank(taken, b)
    decreases b
  {
    if a < b {
      RankMonotone(taken, a, b - 1);
    }
  }

  lemma OneMate(taken: set<int>, a: int, b: int, c: int)
    requires Mates(taken, a, b) && Mates(taken, a, c)
    ensures b == c
  {
    RankMonotone(taken, if a < b then a else b, if a < b then b else a);
    RankMonotone(taken, if a < c then a else c, if a < c then c else a);
    RankMonotone(taken, if b < c then b else c, if b < c then c else b);
  }

  /** The number not taken that comes before n. */
  lemma {:induction false} Before(taken: set<int>, n: nat) returns (m: nat)
    requires Rank(taken, n) > 0
    ensures m < n && m !in taken && Rank(taken, m) == Rank(taken, n) - 1
  {
    m := n - 1;
    if m in taken {
      m := Before(taken, n - 1);
    }
  }

  /** The number not taken that comes after a. */
  lemma {:induction false} Behind(taken: set<int>, a: nat, b: nat) returns (m: nat)
    requires a < b && a !in taken && b !in taken
    ensures a < m <= b && m !in taken && Rank(taken, m) == Rank(taken, a) + 1
    decreases b
  {
    var k := Before(taken, b) by { RankMonotone(taken, a, b); }
    if k == a {
      m := b;
    } else if k > a {
      m := Behind(taken, a, k);
    } else {
      RankMonotone(taken, k, a);
      RankMonotone(taken, a, b);
      assert false;
    }
  }

  /* ---- Opening and closing ---- */

  /** The two lowest free numbers are mates. */
  lemma LowestAreMates(taken: set<int>, open: set<int>, a: int, b: int)
    requires InTwos(taken, open) && LowestFree(taken, open, a) && LowestFree(taken, open + {a}, b)
    ensures a < b && Mates(taken, a, b)
  {
    if Rank(taken, a) % 2 == 1 {
      var m := Before(taken, a);
      assert Mates(taken, m, a) && m in open;
    }
    var m := Behind(taken, a, b);
    if m < b {
      assert m in open + {a};
      assert Mates(taken, m, a);
    }
  }

  lemma OpeningKeepsTwos(taken: set<int>, open: set<int>, a: int, b: int)
    requires InTwos(taken, open) && Mates(taken, a, b)
    ensures InTwos(taken, open + {a, b})
  {
    forall c, d | c in open + {a, b} && Mates(taken, c, d) ensures d in open + {a, b} {
      if c == a {
        OneMate(taken, a, b, d);
      } else if c == b {
        OneMate(taken, b, a, d);
      }
    }
  }

  lemma ClosingKeepsTwos(taken: set<int>, open: set<int>, a: int, b: int)
    requires InTwos(taken, open) && Mates(taken, a, b)
    ensures InTwos(taken, open - {a, b})
  {
    forall c, d | c in open - {a, b} && Mates(taken, c, d) ensures d in open - {a, b} {
      if d == a {
        OneMate(taken, a, b, c);
      } else if d == b {
        OneMate(taken, b, a, c);
      }
    }
  }
}
