/** Words as natural numbers, bit by bit. */
module Bits {

  function And(a: nat, b: nat): (r: nat)
    ensures r <= a && r <= b
  {
    if a == 0 then 0 else 2 * And(a / 2, b / 2) + (if a % 2 == 1 && b % 2 == 1 then 1 else 0)
  }

  function Or(a: nat, b: nat): (r: nat)
    decreases a + b
  {
    if a == 0 && b == 0 then 0 else 2 * Or(a / 2, b / 2) + (if a % 2 == 1 || b % 2 == 1 then 1 else 0)
  }

  /** Words without a common bit are combined by adding them. */
  lemma {:induction false} OrDisjoint(a: nat, b: nat)
    requires And(a, b) == 0
    ensures Or(a, b) == a + b
    decreases a + b
  {
    if a != 0 { OrDisjoint(a / 2, b / 2); } else if b != 0 { OrDisjoint(0, b / 2); }
  }

  /** Bits k of v, moved to a word a that has none of the bits of v. */
  lemma {:induction false} MoveBits(a: nat, v: nat, k: nat)
    requires And(a, v) == 0 && And(k, v) == k
    ensures And(a, k) == 0 && And(a + k, v - k) == 0
    decreases a + v + k
  {
    if a != 0 || k != 0 {
      assert And(a / 2, v / 2) == 0 && !(a % 2 == 1 && v % 2 == 1);
      assert And(k / 2, v / 2) == k / 2 && (k % 2 == 1 ==> v % 2 == 1);
      MoveBits(a / 2, v / 2, k / 2);
      assert (a + k) / 2 == a / 2 + k / 2 && (v - k) / 2 == v / 2 - k / 2;
      assert And(a / 2 + k / 2, v / 2 - k / 2) == 0;
    }
  }

  lemma {:induction false} AndZero(a: nat)
    ensures And(a, 0) == 0
  {
    if a != 0 { AndZero(a / 2); }
  }

  /** Bit i of a word. */
  predicate Bit(a: nat, i: nat)
    decreases i
  {
    if i == 0 then a % 2 == 1 else Bit(a / 2, i - 1)
  }

  lemma {:induction false} AndBit(a: nat, b: nat, i: nat)
    ensures Bit(And(a, b), i) <==> Bit(a, i) && Bit(b, i)
    decreases i
  {
    if a == 0 { NoBits(i); } else if i > 0 { AndBit(a / 2, b / 2, i - 1); }
  }

  lemma {:induction false} NoBits(i: nat)
    ensures !Bit(0, i)
  {
    if i > 0 { NoBits(i - 1); }
  }

  lemma {:induction false} OrBit(a: nat, b: nat, i: nat)
    ensures Bit(Or(a, b), i) <==> Bit(a, i) || Bit(b, i)
    decreases i
  {
    if a == 0 && b == 0 { NoBits(i); } else if i > 0 { OrBit(a / 2, b / 2, i - 1); }
  }

  /** A word that is not zero has a bit. */
  lemma {:induction false} SomeBit(a: nat) returns (i: nat)
    requires a != 0
    ensures Bit(a, i)
  {
    if a % 2 == 1 { return 0; }
    i := SomeBit(a / 2);
    i := i + 1;
  }

  /** Words are equal if their bits are. */
  lemma {:induction false} SameBits(a: nat, b: nat)
    requires forall i: nat :: Bit(a, i) <==> Bit(b, i)
    ensures a == b
    decreases a + b
  {
    assert Bit(a, 0) <==> Bit(b, 0);
    if a != 0 || b != 0 {
      forall i: nat ensures Bit(a / 2, i) <==> Bit(b / 2, i) {
        assert Bit(a, i + 1) <==> Bit(b, i + 1);
      }
      SameBits(a / 2, b / 2);
    }
  }

  /** Every bit of k is a bit of v. */
  predicate Inside(k: nat, v: nat) { And(k, v) == k }

  predicate Apart(a: nat, b: nat) { And(a, b) == 0 }

  lemma InsideBit(k: nat, v: nat, i: nat)
    requires Inside(k, v) && Bit(k, i)
    ensures Bit(v, i)
  {
    AndBit(k, v, i);
  }

  lemma InsideIfBits(k: nat, v: nat)
    requires forall i: nat :: Bit(k, i) ==> Bit(v, i)
    ensures Inside(k, v)
  {
    forall i: nat ensures Bit(And(k, v), i) <==> Bit(k, i) { AndBit(k, v, i); }
    SameBits(And(k, v), k);
  }

  lemma ApartBit(a: nat, b: nat, i: nat)
    requires Apart(a, b)
    ensures !(Bit(a, i) && Bit(b, i))
  {
    AndBit(a, b, i);
    NoBits(i);
  }

  /** Subtracting a word from one it is inside of takes its bits away. */
  lemma {:induction false} MinusBit(v: nat, k: nat, i: nat)
    requires Inside(k, v)
    ensures Bit(v - k, i) <==> Bit(v, i) && !Bit(k, i)
    decreases i
  {
    assert k % 2 == 1 ==> v % 2 == 1;
    assert Inside(k / 2, v / 2);
    assert (v - k) / 2 == v / 2 - k / 2;
    if i > 0 { MinusBit(v / 2, k / 2, i - 1); }
  }

}
