/** Bitsets over the vocabulary, as arrays of 64-bit words: membership, counting, and selecting
    the member of a given rank with `w & (w - 1)` and trailing zeros. A machine word is the
    natural number it denotes. */
module WordSets {
  const BITS := 64
  const WORDS := 16
  const WORD_LIMIT := 0x1_0000_0000_0000_0000

  /** 2^n */
  function Pow2(n: nat): (p: nat)
    ensures p > 0
  {
    if n == 0 then 1 else 2 * Pow2(n - 1)
  }

  lemma {:induction false} Pow2Sum(a: nat, b: nat)
    ensures Pow2(a + b) == Pow2(a) * Pow2(b)
  {
    if a > 0 {
      Pow2Sum(a - 1, b);
    }
  }

  lemma WordLimit()
    ensures Pow2(BITS) == WORD_LIMIT
  {
    assert Pow2(8) == 256;
    Pow2Sum(8, 8);
    Pow2Sum(16, 16);
    Pow2Sum(32, 32);
  }

  // ---------------------------------------------------------------- one machine word

  predicate Bit(w: nat, i: nat) {
    if i == 0 then w % 2 == 1 else Bit(w / 2, i - 1)
  }

  function And(a: nat, b: nat): nat
    decreases a
  {
    if a == 0 then 0 else (if a % 2 == 1 && b % 2 == 1 then 1 else 0) + 2 * And(a / 2, b / 2)
  }

  function Or(a: nat, b: nat): nat
    decreases a + b
  {
    if a == 0 && b == 0 then 0 else (if a % 2 == 1 || b % 2 == 1 then 1 else 0) + 2 * Or(a / 2, b / 2)
  }

  function OnesCount(w: nat): nat {
    if w == 0 then 0 else w % 2 + OnesCount(w / 2)
  }

  function TrailingZeros(w: nat): nat
    requires w > 0
  {
    if w % 2 == 1 then 0 else 1 + TrailingZeros(w / 2)
  }

  /** How many of the lowest `k` bits are set. */
  function BitsBelow(w: nat, k: nat): nat {
    if k == 0 then 0 else w % 2 + BitsBelow(w / 2, k - 1)
  }

  lemma {:induction false} ZeroHasNoBits(i: nat)
    ensures !Bit(0, i)
  {
    if i > 0 {
      ZeroHasNoBits(i - 1);
    }
  }

  lemma {:induction false} BitAnd(a: nat, b: nat, i: nat)
    ensures Bit(And(a, b), i) <==> Bit(a, i) && Bit(b, i)
    decreases i
  {
    if a == 0 {
      ZeroHasNoBits(i);
    } else {
      var rest := And(a / 2, b / 2);
      assert And(a, b) / 2 == rest;
      if i > 0 {
        BitAnd(a / 2, b / 2, i - 1);
      }
    }
  }

  lemma {:induction false} BitOr(a: nat, b: nat, i: nat)
    ensures Bit(Or(a, b), i) <==> Bit(a, i) || Bit(b, i)
    decreases i
  {
    if a == 0 && b == 0 {
      ZeroHasNoBits(i);
    } else {
      var rest := Or(a / 2, b / 2);
      assert Or(a, b) / 2 == rest;
      if i > 0 {
        BitOr(a / 2, b / 2, i - 1);
      }
    }
  }

  lemma {:induction false} BitPow2(n: nat, i: nat)
    ensures Bit(Pow2(n), i) <==> i == n
  {
    if n == 0 {
      if i > 0 {
        ZeroHasNoBits(i - 1);
      }
    } else if i > 0 {
      assert Pow2(n) / 2 == Pow2(n - 1);
      BitPow2(n - 1, i - 1);
    }
  }

  lemma {:induction false} AndSelf(a: nat)
    ensures And(a, a) == a
  {
    if a > 0 {
      AndSelf(a / 2);
      assert And(a, a) == a % 2 + 2 * (a / 2);
    }
  }

  lemma {:induction false} AndBelow(a: nat, b: nat)
    ensures And(a, b) <= a && And(a, b) <= b
    decreases a
  {
    if a > 0 {
      AndBelow(a / 2, b / 2);
    }
  }

  lemma {:induction false} OrBelow(a: nat, b: nat, n: nat)
    requires a < Pow2(n) && b < Pow2(n)
    ensures Or(a, b) < Pow2(n)
    decreases n
  {
    if a != 0 || b != 0 {
      OrBelow(a / 2, b / 2, n - 1);
    }
  }

  /** `w & (w - 1)` clears the lowest set bit: halving, it keeps the upper bits of an odd word
      and clears within the upper bits of an even one. */
  lemma ClearLowest(w: nat)
    requires w > 0
    ensures And(w, w - 1) == if w % 2 == 1 then w - 1 else 2 * And(w / 2, w / 2 - 1)
  {
    var half := w / 2;
    if w % 2 == 1 {
      AndSelf(half);
      assert w == 2 * half + 1 && (w - 1) / 2 == half && (w - 1) % 2 == 0;
    } else {
      assert w == 2 * half && (w - 1) / 2 == half - 1;
    }
  }

  /** The position of the set bit with `rank` set bits below it. */
  function SelectBit(w: nat, rank: nat): (i: nat)
    requires rank < OnesCount(w)
    ensures Bit(w, i) && BitsBelow(w, i) == rank
    decreases w
  {
    if w % 2 == 1 && rank == 0 then 0
    else 1 + SelectBit(w / 2, rank - w % 2)
  }

  lemma {:induction false} TrailingZerosSelects(w: nat)
    requires w > 0
    ensures OnesCount(w) > 0 && TrailingZeros(w) == SelectBit(w, 0)
  {
    if w % 2 == 0 {
      TrailingZerosSelects(w / 2);
    }
  }

  /** Clearing the lowest set bit lowers every rank by one. */
  lemma {:induction false} ClearingShiftsRank(w: nat, rank: nat)
    requires 0 < rank < OnesCount(w)
    ensures And(w, w - 1) > 0 && OnesCount(And(w, w - 1)) == OnesCount(w) - 1
    ensures SelectBit(And(w, w - 1), rank - 1) == SelectBit(w, rank)
    decreases w
  {
    ClearLowest(w);
    if w % 2 == 0 {
      ClearingShiftsRank(w / 2, rank);
      var v := And(w / 2, w / 2 - 1);
      assert (2 * v) / 2 == v;
    } else {
      assert (w - 1) / 2 == w / 2;
    }
  }

  lemma {:induction false} CountsAllBits(w: nat, n: nat)
    requires w < Pow2(n)
    ensures BitsBelow(w, n) == OnesCount(w)
  {
    if n > 0 {
      CountsAllBits(w / 2, n - 1);
    }
  }

  lemma {:induction false} BitsBelowStep(w: nat, k: nat)
    ensures BitsBelow(w, k + 1) == BitsBelow(w, k) + if Bit(w, k) then 1 else 0
  {
    if k > 0 {
      BitsBelowStep(w / 2, k - 1);
    }
  }

  // ------------------------------------------------------------------ whole sets

  predicate IsSet(s: seq<nat>) {
    |s| == WORDS && forall i :: 0 <= i < WORDS ==> s[i] < WORD_LIMIT
  }

  function Empty(): seq<nat> {
    [0, 0, 0, 0, 0, 0, 0, 0, 0, 0, 0, 0, 0, 0, 0, 0]
  }

  predicate Has(s: seq<nat>, i: nat)
    requires |s| == WORDS
  {
    i < WORDS * BITS && Bit(s[i / BITS], i % BITS)
  }

  /** How many members lie below `i`. */
  function Rank(s: seq<nat>, i: nat): nat
    requires |s| == WORDS
  {
    if i == 0 then 0 else Rank(s, i - 1) + if Has(s, i - 1) then 1 else 0
  }

  function Size(s: seq<nat>): nat
    requires |s| == WORDS
  {
    Rank(s, WORDS * BITS)
  }

  lemma {:induction false} RankInWord(s: seq<nat>, slot: nat, k: nat)
    requires |s| == WORDS && slot < WORDS && k <= BITS
    ensures Rank(s, slot * BITS + k) == Rank(s, slot * BITS) + BitsBelow(s[slot], k)
  {
    if k > 0 {
      RankInWord(s, slot, k - 1);
      BitsBelowStep(s[slot], k - 1);
      var i := slot * BITS + k - 1;
      assert i / BITS == slot && i % BITS == k - 1;
    }
  }

  lemma RankAfterWord(s: seq<nat>, slot: nat)
    requires IsSet(s) && slot < WORDS
    ensures Rank(s, (slot + 1) * BITS) == Rank(s, slot * BITS) + OnesCount(s[slot])
  {
    WordLimit();
    WholeWord(s, slot, BITS);
  }

  lemma WholeWord(s: seq<nat>, slot: nat, bits: nat)
    requires |s| == WORDS && slot < WORDS && bits == BITS && s[slot] < Pow2(bits)
    ensures Rank(s, (slot + 1) * bits) == Rank(s, slot * bits) + OnesCount(s[slot])
  {
    RankInWord(s, slot, bits);
    CountsAllBits(s[slot], bits);
    assert (slot + 1) * bits == slot * bits + bits;
  }

  lemma {:induction false} RankGrows(s: seq<nat>, i: nat, j: nat)
    requires |s| == WORDS && i <= j
    ensures Rank(s, i) <= Rank(s, j)
    ensures i < j && Has(s, i) ==> Rank(s, i) < Rank(s, j)
    decreases j
  {
    if i < j {
      RankGrows(s, i, j - 1);
    }
  }

  /** A member is determined by its rank. */
  lemma RankIsInjective(s: seq<nat>, i: nat, j: nat)
    requires |s| == WORDS && Has(s, i) && Has(s, j) && Rank(s, i) == Rank(s, j)
    ensures i == j
  {
    RankGrows(s, i, j);
    RankGrows(s, j, i);
  }

  /** The member of the given rank, searched below `n`. */
  function SelectBelow(s: seq<nat>, n: nat, rank: nat): (i: nat)
    requires |s| == WORDS && rank < Rank(s, n)
    ensures i < n && Has(s, i) && Rank(s, i) == rank
  {
    if rank < Rank(s, n - 1) then SelectBelow(s, n - 1, rank) else n - 1
  }

  function Select(s: seq<nat>, rank: nat): (i: nat)
    requires |s| == WORDS && rank < Size(s)
    ensures i < WORDS * BITS && Has(s, i) && Rank(s, i) == rank
  {
    SelectBelow(s, WORDS * BITS, rank)
  }

  /** Selecting inverts ranking. */
  lemma SelectInvertsRank(s: seq<nat>, i: nat)
    requires |s| == WORDS && Has(s, i)
    ensures Rank(s, i) < Size(s) && Select(s, Rank(s, i)) == i
  {
    RankGrows(s, i, WORDS * BITS);
    RankIsInjective(s, i, Select(s, Rank(s, i)));
  }

  method Add(s: seq<nat>, i: nat) returns (t: seq<nat>)
    requires IsSet(s) && i < WORDS * BITS
    ensures IsSet(t) && forall j: nat :: Has(t, j) <==> j == i || Has(s, j)
  {
    t := s[i / BITS := Or(s[i / BITS], Pow2(i % BITS))];
    WordLimit();
    Pow2Grows(i % BITS, BITS);
    OrBelow(s[i / BITS], Pow2(i % BITS), BITS);
    forall j: nat
      ensures Has(t, j) <==> j == i || Has(s, j)
    {
      if j < WORDS * BITS && j / BITS == i / BITS {
        BitOr(s[i / BITS], Pow2(i % BITS), j % BITS);
        BitPow2(i % BITS, j % BITS);
      }
    }
  }

  lemma {:induction false} Pow2Grows(a: nat, b: nat)
    requires a < b
    ensures Pow2(a) < Pow2(b)
  {
    if a + 1 < b {
      Pow2Grows(a, b - 1);
    }
  }

  method Count(s: seq<nat>) returns (n: nat)
    requires IsSet(s)
    ensures n == Size(s)
  {
    n := 0;
    for slot := 0 to WORDS
      invariant n == Rank(s, slot * BITS)
    {
      RankAfterWord(s, slot);
      n := n + OnesCount(s[slot]);
    }
  }

  /** Selects the member of the given rank, if there are that many. */
  method At(s: seq<nat>, rank: nat) returns (i: int)
    requires IsSet(s)
    ensures i == -1 <==> rank >= Size(s)
    ensures i != -1 ==> i == Select(s, rank)
  {
    var left: nat := rank;
    for slot := 0 to WORDS
      invariant rank == Rank(s, slot * BITS) + left
    {
      var n := OnesCount(s[slot]);
      RankAfterWord(s, slot);
      if left >= n {
        left := left - n;
      } else {
        var j := SelectInWord(s[slot], left);
        i := slot * BITS + j;
        SelectedInWord(s, slot, j);
        SelectInvertsRank(s, i);
        return;
      }
    }
    return -1;
  }

  lemma SelectedInWord(s: seq<nat>, slot: nat, j: nat)
    requires IsSet(s) && slot < WORDS && Bit(s[slot], j)
    ensures j < BITS && Has(s, slot * BITS + j)
    ensures Rank(s, slot * BITS + j) == Rank(s, slot * BITS) + BitsBelow(s[slot], j)
  {
    WordLimit();
    HighBitsAreClear(s[slot], BITS, j);
    RankInWord(s, slot, j);
    var i := slot * BITS + j;
    assert i / BITS == slot && i % BITS == j;
  }

  lemma {:induction false} HighBitsAreClear(w: nat, n: nat, j: nat)
    requires w < Pow2(n) && Bit(w, j)
    ensures j < n
  {
    if n == 0 {
      ZeroHasNoBits(j);
    } else if j > 0 {
      HighBitsAreClear(w / 2, n - 1, j - 1);
    }
  }

  /** The inner loop: drop the `rank` lowest set bits, then look at the lowest one left. */
  method SelectInWord(word: nat, rank: nat) returns (j: nat)
    requires rank < OnesCount(word)
    ensures j == SelectBit(word, rank)
  {
    var w: nat, left: nat := word, rank;
    while left > 0
      invariant left < OnesCount(w) && SelectBit(w, left) == SelectBit(word, rank)
    {
      ClearingShiftsRank(w, left);
      assert w > 0;
      w := And(w, w - 1);
      left := left - 1;
    }
    TrailingZerosSelects(w);
    j := TrailingZeros(w);
  }
}
