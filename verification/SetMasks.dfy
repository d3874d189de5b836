/** When greed pays: which keyword tables let every set that can be written be printed in full. */
module SetMasks {
  import opened Bits
  import opened SetText

  // ---------------------------------------------------------------------------
  // Tables, as they are built
  // ---------------------------------------------------------------------------

  /** A property's keywords, and whether single characters stand for them. */
  datatype KeyList = KeyList(keys: seq<Keyword>, charset: bool)

  /** Each member goes in front of the ones defined before; a long name ends single-character mode. */
  function DefineMember(t: KeyList, key: Keyword): KeyList
  {
    var charset := t.keys == [] || t.charset;
    KeyList([key] + t.keys, charset && |key.name| <= 1)
  }

  function DefineAll(keys: seq<Keyword>): KeyList
  {
    if keys == [] then KeyList([], false) else DefineMember(DefineAll(keys[..|keys| - 1]), keys[|keys| - 1])
  }

  /** A table is in single-character mode exactly if it has a keyword and none has a longer name, and its
      keywords are in the reverse order of their definition. */
  lemma {:induction false} CharsetIff(keys: seq<Keyword>)
    ensures DefineAll(keys).charset <==> keys != [] && forall k :: 0 <= k < |keys| ==> |keys[k].name| <= 1
    ensures |DefineAll(keys).keys| == |keys|
    ensures forall k :: 0 <= k < |keys| ==> DefineAll(keys).keys[k] == keys[|keys| - 1 - k]
    decreases |keys|
  {
    if keys != [] {
      var n := |keys| - 1;
      CharsetIff(keys[..n]);
      assert DefineAll(keys[..n]).keys == [] <==> n == 0;
      assert forall k :: 0 <= k < n ==> keys[..n][k] == keys[k];
    }
  }

  // ---------------------------------------------------------------------------
  // Values made of keywords
  // ---------------------------------------------------------------------------

  ghost predicate Picks(keys: seq<Keyword>, picks: seq<nat>)
  {
    forall p :: 0 <= p < |picks| ==> picks[p] < |keys|
  }

  /** The values of some keywords, put together. */
  ghost function OrOf(keys: seq<Keyword>, picks: seq<nat>): nat
    requires Picks(keys, picks)
  {
    if picks == [] then 0 else Or(OrOf(keys, picks[..|picks| - 1]), keys[picks[|picks| - 1]].value)
  }

  lemma {:induction false} OrOfBit(keys: seq<Keyword>, picks: seq<nat>, i: nat)
    requires Picks(keys, picks)
    ensures Bit(OrOf(keys, picks), i) <==> exists p :: 0 <= p < |picks| && Bit(keys[picks[p]].value, i)
    decreases |picks|
  {
    if picks == [] {
      NoBits(i);
    } else {
      var n := |picks| - 1;
      OrBit(OrOf(keys, picks[..n]), keys[picks[n]].value, i);
      OrOfBit(keys, picks[..n], i);
      if Bit(OrOf(keys, picks[..n]), i) {
        var p :| 0 <= p < n && Bit(keys[picks[..n][p]].value, i);
        assert picks[p] == picks[..n][p];
      }
      if p :| 0 <= p < |picks| && Bit(keys[picks[p]].value, i) {
        if p < n { assert picks[..n][p] == picks[p]; }
      }
    }
  }

  /** Keyword j has bit i, and lies inside v. */
  ghost predicate Names(keys: seq<Keyword>, v: nat, i: nat, j: nat)
    requires j < |keys|
  {
    Inside(keys[j].value, v) && Bit(keys[j].value, i)
  }

  /** Every bit of v is a bit of a keyword that lies inside v. */
  ghost predicate Covered(keys: seq<Keyword>, v: nat)
  {
    forall i: nat :: Bit(v, i) ==> exists j :: 0 <= j < |keys| && Names(keys, v, i, j)
  }

  lemma OrOfIsCovered(keys: seq<Keyword>, picks: seq<nat>)
    requires Picks(keys, picks)
    ensures Covered(keys, OrOf(keys, picks))
  {
    var v := OrOf(keys, picks);
    forall i: nat | Bit(v, i) ensures exists j :: 0 <= j < |keys| && Names(keys, v, i, j) {
      OrOfBit(keys, picks, i);
      var p :| 0 <= p < |picks| && Bit(keys[picks[p]].value, i);
      forall b: nat | Bit(keys[picks[p]].value, b) ensures Bit(v, b) { OrOfBit(keys, picks, b); }
      InsideIfBits(keys[picks[p]].value, v);
      assert Names(keys, v, i, picks[p]);
    }
  }

  // ---------------------------------------------------------------------------
  // When greed costs nothing
  // ---------------------------------------------------------------------------

  /** The masks share no bits, or the one printed later is part of the earlier one. */
  predicate Harmless(earlier: nat, later: nat) { Apart(earlier, later) || Inside(later, earlier) }

  ghost predicate Nested(keys: seq<Keyword>)
  {
    forall j, k :: 0 <= j < k < |keys| ==> Harmless(keys[j].value, keys[k].value)
  }

  lemma NotNamed(keys: seq<Keyword>, v: nat)
    requires keys != [] && !Chosen(keys[0], v, false) && Covered(keys, v)
    ensures Covered(keys[1..], v)
  {
    forall i: nat | Bit(v, i) ensures exists j :: 0 <= j < |keys[1..]| && Names(keys[1..], v, i, j) {
      var j :| 0 <= j < |keys| && Names(keys, v, i, j);
      if j == 0 { NoBits(i); }
      assert Names(keys[1..], v, i, j - 1);
    }
  }

  /** Printing the first keyword leaves a value that the others cover. */
  lemma FirstNamed(keys: seq<Keyword>, v: nat)
    requires keys != [] && Chosen(keys[0], v, false) && Covered(keys, v) && Nested(keys)
    ensures Covered(keys[1..], v - keys[0].value)
  {
    var k, tail := keys[0].value, keys[1..];
    var rest: nat := v - k;
    forall i: nat | Bit(rest, i) ensures exists j :: 0 <= j < |tail| && Names(tail, rest, i, j) {
      MinusBit(v, k, i);
      var j :| 0 <= j < |keys| && Names(keys, v, i, j);
      assert j > 0 && Harmless(k, keys[j].value);
      StillInside(v, k, keys[j].value, i);
      assert Names(tail, rest, i, j - 1);
    }
  }

  lemma StillInside(v: nat, k: nat, m: nat, i: nat)
    requires Inside(k, v) && Inside(m, v) && Harmless(k, m) && Bit(m, i) && !Bit(k, i)
    ensures Inside(m, v - k)
  {
    if Inside(m, k) { InsideBit(m, k, i); }
    forall b: nat | Bit(m, b) ensures Bit(v - k, b) {
      InsideBit(m, v, b);
      ApartBit(k, m, b);
      MinusBit(v, k, b);
    }
    InsideIfBits(m, v - k);
  }

  /** In a nested table everything made of keywords is printed in full. */
  lemma {:induction false} GreedSucceeds(keys: seq<Keyword>, v: nat)
    requires Nested(keys) && Covered(keys, v)
    ensures Residue(keys, v, false) == 0
    decreases |keys|
  {
    if keys == [] {
      if v != 0 {
        var i := SomeBit(v);
        assert false;
      }
    } else if Chosen(keys[0], v, false) {
      FirstNamed(keys, v);
      GreedSucceeds(keys[1..], v - keys[0].value);
    } else {
      NotNamed(keys, v);
      GreedSucceeds(keys[1..], v);
    }
  }

  /** What is printed in full, from any table, is made of keywords. */
  lemma {:induction false} PrintedIsCovered(keys: seq<Keyword>, v: nat)
    requires Residue(keys, v, false) == 0
    ensures Covered(keys, v)
    decreases |keys|
  {
    if keys == [] {
      forall i: nat ensures !Bit(v, i) { NoBits(i); }
    } else {
      var chosen, k := Chosen(keys[0], v, false), keys[0].value;
      var rest: nat := if chosen then v - k else v;
      PrintedIsCovered(keys[1..], rest);
      forall i: nat | Bit(v, i) ensures exists j :: 0 <= j < |keys| && Names(keys, v, i, j) {
        if chosen && Bit(k, i) {
          assert Names(keys, v, i, 0);
        } else {
          if chosen { MinusBit(v, k, i); }
          var j :| 0 <= j < |keys[1..]| && Names(keys[1..], rest, i, j);
          if chosen { InsideMore(keys[j + 1].value, v, k); }
          assert Names(keys, v, i, j + 1);
        }
      }
    }
  }

  lemma InsideMore(m: nat, v: nat, k: nat)
    requires Inside(k, v) && k <= v && Inside(m, v - k)
    ensures Inside(m, v)
  {
    forall b: nat | Bit(m, b) ensures Bit(v, b) {
      InsideBit(m, v - k, b);
      MinusBit(v, k, b);
    }
    InsideIfBits(m, v);
  }

  /** In a nested table exactly the values made of keywords are printed in full. */
  lemma PrintsIffCovered(keys: seq<Keyword>, v: nat)
    requires Nested(keys)
    ensures Residue(keys, v, false) == 0 <==> Covered(keys, v)
  {
    if Covered(keys, v) { GreedSucceeds(keys, v); } else if Residue(keys, v, false) == 0 { PrintedIsCovered(keys, v); }
  }

  /** From a nested table a value comes back exactly if every bit of it is a bit of a keyword inside it. */
  lemma ComesBackIffCovered(keys: seq<Keyword>, v: nat, charset: bool)
    requires Table(keys, charset) && Nested(keys)
    requires var p := Printed(keys, v, v == 0); |Join(p, charset)| <= 4095
    ensures var r := Parse(keys, Join(Printed(keys, v, v == 0), charset), charset);
            r.Members? && (r.value == v <==> Covered(keys, v))
  {
    RoundTripIff(keys, v, charset);
    if v == 0 {
      forall i: nat ensures !Bit(v, i) { NoBits(i); }
    } else {
      PrintsIffCovered(keys, v);
    }
  }

  // ---------------------------------------------------------------------------
  // ... and when it does
  // ---------------------------------------------------------------------------

  /** The values of two keywords, put together, are printed in full exactly if the pair is harmless. */
  lemma TwoInFullIff(a: Keyword, b: Keyword)
    ensures Residue([a, b], Or(a.value, b.value), false) == 0 <==> Harmless(a.value, b.value)
  {
    var keys, v := [a, b], Or(a.value, b.value);
    if Harmless(a.value, b.value) {
      assert keys[0] == a && keys[1] == b;
      BothCovered(a, b);
      GreedSucceeds(keys, v);
    } else {
      LeftOver(a, b);
    }
  }

  lemma BothCovered(a: Keyword, b: Keyword)
    ensures Covered([a, b], Or(a.value, b.value))
  {
    var keys, v := [a, b], Or(a.value, b.value);
    forall i: nat | Bit(v, i) ensures exists j :: 0 <= j < |keys| && Names(keys, v, i, j) {
      InsideOr(a.value, b.value);
      OrBit(a.value, b.value, i);
      assert Names(keys, v, i, if Bit(a.value, i) then 0 else 1);
    }
  }

  lemma InsideOr(a: nat, b: nat)
    ensures Inside(a, Or(a, b)) && Inside(b, Or(a, b))
  {
    forall i: nat ensures (Bit(a, i) ==> Bit(Or(a, b), i)) && (Bit(b, i) ==> Bit(Or(a, b), i)) { OrBit(a, b, i); }
    InsideIfBits(a, Or(a, b));
    InsideIfBits(b, Or(a, b));
  }

  /** A later keyword that only overlaps an earlier one does not fit any more once that is printed. */
  lemma LeftOver(a: Keyword, b: Keyword)
    requires !Harmless(a.value, b.value)
    ensures Residue([a, b], Or(a.value, b.value), false) != 0
  {
    var v, rest := Or(a.value, b.value), Or(a.value, b.value) - a.value;
    InsideOr(a.value, b.value);
    var shared := SomeBit(And(a.value, b.value));
    AndBit(a.value, b.value, shared);
    if a.value == 0 { NoBits(shared); }
    MinusBit(v, a.value, shared);
    if Inside(b.value, rest) { InsideBit(b.value, rest, shared); }
    var y := OwnBit(b.value, a.value);
    OrBit(a.value, b.value, y);
    MinusBit(v, a.value, y);
    if rest == 0 { NoBits(y); }
    assert Chosen(a, v, false) && !Chosen(b, rest, false);
    assert [a, b][1..] == [b] && [b][1..] == [];
    assert Residue([b], rest, false) == rest;
  }

  lemma OwnBit(k: nat, v: nat) returns (i: nat)
    requires !Inside(k, v)
    ensures Bit(k, i) && !Bit(v, i)
  {
    if forall i: nat :: Bit(k, i) ==> Bit(v, i) {
      InsideIfBits(k, v);
      assert false;
    }
    i :| Bit(k, i) && !Bit(v, i);
  }

  // ---------------------------------------------------------------------------
  // Whole tables
  // ---------------------------------------------------------------------------

  /** Some rows of a table, in their order. */
  ghost predicate SubTable(rows: seq<Keyword>, keys: seq<Keyword>, at: seq<nat>)
  {
    && |at| == |rows|
    && (forall p :: 0 <= p < |at| ==> at[p] < |keys| && rows[p] == keys[at[p]])
    && (forall p, q :: 0 <= p < q < |at| ==> at[p] < at[q])
  }

  /** Whatever some of the rows make together is printed in full. */
  ghost predicate InFull(rows: seq<Keyword>)
  {
    forall picks :: Picks(rows, picks) ==> Residue(rows, OrOf(rows, picks), false) == 0
  }

  /** Every part of a table prints in full if and only if of any two of its masks that share a bit the one
      printed later is part of the earlier one. */
  lemma InFullIff(keys: seq<Keyword>)
    ensures (forall rows, at :: SubTable(rows, keys, at) ==> InFull(rows)) <==> Nested(keys)
  {
    if Nested(keys) {
      forall rows, at | SubTable(rows, keys, at) ensures InFull(rows) { SubTableInFull(rows, keys, at); }
    }
    if forall rows, at :: SubTable(rows, keys, at) ==> InFull(rows) {
      forall j, k | 0 <= j < k < |keys| ensures Harmless(keys[j].value, keys[k].value) {
        var rows, at := [keys[j], keys[k]], [j, k];
        assert SubTable(rows, keys, at);
        assert InFull(rows);
        PairPicked(rows);
        TwoInFullIff(keys[j], keys[k]);
      }
    }
  }

  lemma PairPicked(rows: seq<Keyword>)
    requires |rows| == 2
    ensures Picks(rows, [0, 1]) && OrOf(rows, [0, 1]) == Or(rows[0].value, rows[1].value)
  {
    var one: seq<nat>, two: seq<nat> := [0], [0, 1];
    assert two[..1] == one && one[..0] == [];
    assert OrOf(rows, one) == Or(0, rows[0].value);
    OrZero(rows[0].value);
  }

  lemma OrZero(a: nat)
    ensures Or(0, a) == a
  {
    forall i: nat ensures Bit(Or(0, a), i) <==> Bit(a, i) {
      OrBit(0, a, i);
      NoBits(i);
    }
    SameBits(Or(0, a), a);
  }

  lemma SubTableInFull(rows: seq<Keyword>, keys: seq<Keyword>, at: seq<nat>)
    requires Nested(keys) && SubTable(rows, keys, at)
    ensures InFull(rows)
  {
    forall p, q | 0 <= p < q < |rows| ensures Harmless(rows[p].value, rows[q].value) {
      assert at[p] < at[q];
    }
    forall picks | Picks(rows, picks) ensures Residue(rows, OrOf(rows, picks), false) == 0 {
      OrOfIsCovered(rows, picks);
      GreedSucceeds(rows, OrOf(rows, picks));
    }
  }

  // ---------------------------------------------------------------------------
  // Reading, printing, reading
  // ---------------------------------------------------------------------------

  lemma Adds(keys: seq<Keyword>, charset: bool, picks: seq<nat>, i: nat)
    requires Table(keys, charset) && Picks(keys, picks) && OrOf(keys, picks) < WORD && i < |keys|
    ensures Picks(keys, picks + [i])
    ensures OrOf(keys, picks + [i]) == Or32(OrOf(keys, picks), keys[i].value) < WORD
  {
    assert Usable(keys[i], charset);
    WordIsPower();
    OrBelow(OrOf(keys, picks), keys[i].value, WORD);
    assert (picks + [i])[..|picks|] == picks;
  }

  /** Everything that can be read is made of keywords. */
  lemma {:induction false} ReadIsMade(keys: seq<Keyword>, charset: bool, words: seq<string>) returns (picks: seq<nat>)
    requires Table(keys, charset) && ParseWords(keys, words).Members?
    ensures Picks(keys, picks) && ParseWords(keys, words).value == OrOf(keys, picks) < WORD
    decreases |words|
  {
    if words == [] { return []; }
    var n := |words| - 1;
    picks := ReadIsMade(keys, charset, words[..n]);
    Adds(keys, charset, picks, Find(keys, words[n]));
    picks := picks + [Find(keys, words[n])];
  }

  lemma {:induction false} ReadCharsIsMade(keys: seq<Keyword>, charset: bool, text: string) returns (picks: seq<nat>)
    requires Table(keys, charset) && ParseChars(keys, text).Members?
    ensures Picks(keys, picks) && ParseChars(keys, text).value == OrOf(keys, picks) < WORD
    decreases |text|
  {
    if text == "" { return []; }
    var n := |text| - 1;
    picks := ReadCharsIsMade(keys, charset, text[..n]);
    Adds(keys, charset, picks, FindChar(keys, text[n]));
    picks := picks + [FindChar(keys, text[n])];
  }

  /** In a nested table, reading, printing and reading again gives the same value for every text that can
      be read. */
  lemma ReadPrintRead(keys: seq<Keyword>, charset: bool, text: string)
    requires Table(keys, charset) && Nested(keys) && Parse(keys, text, charset).Members?
    ensures var v := Parse(keys, text, charset).value;
            var again := Join(Printed(keys, v, v == 0), charset);
            |again| <= 4095 ==> Parse(keys, again, charset) == Members(v, |Printed(keys, v, v == 0)|)
  {
    var v := Parse(keys, text, charset).value;
    var picks;
    if charset && '|' !in text {
      picks := ReadCharsIsMade(keys, charset, text);
    } else {
      picks := ReadIsMade(keys, charset, Words(text));
    }
    MadePrintsInFull(keys, charset, picks, v);
  }

  lemma MadePrintsInFull(keys: seq<Keyword>, charset: bool, picks: seq<nat>, v: nat)
    requires Table(keys, charset) && Nested(keys) && Picks(keys, picks) && v == OrOf(keys, picks) < WORD
    ensures var again := Join(Printed(keys, v, v == 0), charset);
            |again| <= 4095 ==> Parse(keys, again, charset) == Members(v, |Printed(keys, v, v == 0)|)
  {
    RoundTrip(keys, v, charset);
    PrintedSum(keys, v, v == 0);
    OrOfIsCovered(keys, picks);
    if v != 0 { GreedSucceeds(keys, v); }
  }

  // ---------------------------------------------------------------------------
  // Two tables
  // ---------------------------------------------------------------------------

  /** The flow directions in the order of their declaration: for each phase one direction, the other, and none,
      which is written as both. */
  function FlowDirections(): seq<Keyword>
  {
    [Keyword("UNKNOWN", 0), Keyword("AF", 1), Keyword("AR", 2), Keyword("AN", 3),
     Keyword("BF", 16), Keyword("BR", 32), Keyword("BN", 48),
     Keyword("CF", 256), Keyword("CR", 512), Keyword("CN", 768)]
  }

  lemma AndHalves(a: nat, x: nat, b: nat)
    requires a == 2 * x
    ensures And(a, b) == 2 * And(x, b / 2)
  {
    assert a / 2 == x && a % 2 == 0;
  }

  lemma TwiceAsOften(d: nat, w: nat, h: nat)
    requires w == 2 * h
    ensures d * w == 2 * (d * h)
  {
  }

  /** A multiple of a power of two shares no bit with a word below it. */
  lemma {:induction false} AndBelow(d: nat, w: nat, b: nat)
    requires 0 < w && PowerOfTwo(w) && b < w
    ensures And(d * w, b) == 0
    decreases w
  {
    if w == 1 {
      AndZero(d);
    } else {
      AndBelow(d, w / 2, b / 2);
      TwiceAsOften(d, w, w / 2);
      AndHalves(d * w, d * (w / 2), b);
    }
  }

  lemma {:induction false} AndScaled(d: nat, e: nat, w: nat)
    requires 0 < w && PowerOfTwo(w)
    ensures And(d * w, e * w) == And(d, e) * w
    decreases w
  {
    if w > 1 {
      AndScaled(d, e, w / 2);
      ScaledTwice(d * w, d * (w / 2), e * w, e * (w / 2), And(d, e), w / 2) by {
        TwiceAsOften(d, w, w / 2);
        TwiceAsOften(e, w, w / 2);
      }
      TwiceAsOften(And(d, e), w, w / 2);
    }
  }

  lemma ScaledTwice(a: nat, x: nat, b: nat, y: nat, c: nat, h: nat)
    requires a == 2 * x && b == 2 * y && And(x, y) == c * h
    ensures And(a, b) == 2 * (c * h)
  {
    AndHalves(a, x, b);
    assert b / 2 == y;
  }

  /** The table of the flow directions is nested: the combination of both directions of a phase is declared
      last, and so printed first. */
  lemma FlowDirectionsNested()
    ensures Nested(DefineAll(FlowDirections()).keys)
  {
    var declared := FlowDirections();
    CharsetIff(declared);
    var keys := DefineAll(declared).keys;
    forall j, k | 0 <= j < k < |keys| ensures Harmless(keys[j].value, keys[k].value) {
      assert keys[j] == declared[9 - j] && keys[k] == declared[9 - k];
      FlowsHarmless(declared[9 - j].value, declared[9 - k].value, 9 - j, 9 - k);
    }
  }

  lemma FlowsHarmless(v: nat, u: nat, j: nat, k: nat)
    requires k < j < 10 && v == FlowDirections()[j].value && u == FlowDirections()[k].value
    ensures Harmless(v, u)
  {
    if j > 6 {
      PhaseHarmless(v, u, j - 6, if k > 6 then k - 6 else 0, 256);
    } else if j > 3 {
      PhaseHarmless(v, u, j - 3, if k > 3 then k - 3 else 0, 16);
    } else {
      PhaseHarmless(v, u, j, k, 1);
    }
  }

  /** Direction d of a phase, and one declared before it: of the same phase, or below it. */
  lemma PhaseHarmless(v: nat, u: nat, d: nat, e: nat, w: nat)
    requires w in {1, 16, 256} && v == d * w && e < d <= 3 && (u < w || u == e * w)
    ensures Harmless(v, u)
  {
    assert PowerOfTwo(256) && PowerOfTwo(16) && PowerOfTwo(1);
    if u < w {
      AndBelow(d, w, u);
    } else {
      OnePhase(d, e);
      AndScaled(d, e, w);
      AndScaled(e, d, w);
    }
  }

  lemma OnePhase(d: nat, e: nat)
    requires e < d <= 3
    ensures And(d, e) == 0 || And(e, d) == e
  {
    assert And(1, 0) == And(2, 0) == And(3, 0) == And(2, 1) == 0 && And(1, 3) == 1 && And(2, 3) == 2;
  }

  function Overlapping(): seq<Keyword> { [Keyword("A", 3), Keyword("B", 6), Keyword("C", 1)] }

  /** Masks that only overlap: 7 can be written as B and C ... */
  lemma SevenIsBAndC()
    ensures Table(Overlapping(), false)
    ensures ParseWords(Overlapping(), ["B", "C"]) == Members(7, 2)
  {
    var keys := Overlapping();
    assert keys[1..] == [keys[1], keys[2]];
    assert Find(keys, "B") == 1 && Find(keys, "C") == 2;
    assert ["B", "C"][..1] == ["B"] && ["B"][..0] == [];
    assert Or(0, 6) == 6 && Or(6, 1) == 7;
  }

  /** ... but A is printed first, and then neither fits what is left. */
  lemma GreedMisses()
    ensures Printed(Overlapping(), 7, false) == [Keyword("A", 3)] && Residue(Overlapping(), 7, false) == 4
  {
    var keys := Overlapping();
    assert And(3, 7) == 3 && And(6, 4) == 4 && And(1, 4) == 0 by { assert And(0, 2) == 0; }
    assert keys[1..] == [keys[1], keys[2]] && keys[1..][1..] == [keys[2]] && keys[1..][1..][1..] == [];
  }
}
