/**
  * Seat codes: a row from 1 to 30 printed in decimal followed by a letter
  * from A to F, and what it takes for a flight to have a free seat.
  */
module Seats {
  import opened Text

  const Rows: nat := 30
  const Letters: string := "ABCDEF"
  const Capacity: nat := 180

  /** `f"{row}{letter}"`. */
  function SeatCode(row: nat, letter: char): string {
    Decimal(row) + [letter]
  }

  /** Every code the seat draw can produce, row by row. */
  function AllSeatCodes(): (r: seq<string>)
    ensures |r| == Capacity
  {
    seq(Capacity, i requires 0 <= i < Capacity => SeatCode(i / 6 + 1, Letters[i % 6]))
  }

  predicate IsSeatCode(s: string) {
    s in AllSeatCodes()
  }

  /** The draw's outcome: any row in 1..30 with any letter in A..F is a seat code, and nothing else is. */
  lemma {:induction false} SeatCodeRange(s: string)
    ensures IsSeatCode(s) <==> exists row: nat, letter :: 1 <= row <= Rows && letter in Letters && s == SeatCode(row, letter)
  {
    if IsSeatCode(s) {
      var i :| 0 <= i < Capacity && AllSeatCodes()[i] == s;
      assert s == SeatCode(i / 6 + 1, Letters[i % 6]);
    }
    if exists row: nat, letter :: 1 <= row <= Rows && letter in Letters && s == SeatCode(row, letter) {
      var row: nat, letter :| 1 <= row <= Rows && letter in Letters && s == SeatCode(row, letter);
      var k :| 0 <= k < 6 && Letters[k] == letter;
      var i := (row - 1) * 6 + k;
      assert i / 6 + 1 == row && i % 6 == k;
      assert AllSeatCodes()[i] == s;
    }
  }

  /** Two draws print the same code only if they are the same seat. */
  lemma SeatCodeInjective(row1: nat, letter1: char, row2: nat, letter2: char)
    requires SeatCode(row1, letter1) == SeatCode(row2, letter2)
    ensures row1 == row2 && letter1 == letter2
  {
    var a, b := SeatCode(row1, letter1), SeatCode(row2, letter2);
    assert letter1 == a[|a| - 1] && letter2 == b[|b| - 1];
    assert a[..|a| - 1] == Decimal(row1) && b[..|b| - 1] == Decimal(row2);
    DecimalInjective(row1, row2);
  }

  predicate NoDup(xs: seq<string>) {
    forall i, j :: 0 <= i < j < |xs| ==> xs[i] != xs[j]
  }

  /** The 180 seats of a flight have 180 different codes. */
  lemma AllSeatCodesDistinct()
    ensures NoDup(AllSeatCodes())
  {
    var all := AllSeatCodes();
    forall i, j | 0 <= i < j < Capacity ensures all[i] != all[j] {
      if all[i] == all[j] {
        SeatCodeInjective(i / 6 + 1, Letters[i % 6], j / 6 + 1, Letters[j % 6]);
      }
    }
  }

  function Elements(xs: seq<string>): set<string> {
    set x | x in xs
  }

  lemma {:induction false} ElementsOfNoDup(xs: seq<string>)
    requires NoDup(xs)
    ensures |Elements(xs)| == |xs|
  {
    if xs != [] {
      var rest := xs[1..];
      assert Elements(xs) == {xs[0]} + Elements(rest);
      assert xs[0] !in Elements(rest);
      ElementsOfNoDup(rest);
    }
  }

  lemma {:induction false} SubsetCardinality(a: set<string>, b: set<string>)
    requires a <= b
    ensures |a| <= |b|
    decreases |a|
  {
    if a != {} {
      var x :| x in a;
      SubsetCardinality(a - {x}, b - {x});
    }
  }

  /** Some seat of the 30 x 6 grid is not yet among `taken`. */
  predicate HasFreeSeat(taken: seq<string>) {
    exists i :: 0 <= i < Capacity && AllSeatCodes()[i] !in taken
  }

  /**
    * For a duplicate-free list of issued seat codes, a free seat remains
    * exactly while fewer than 180 seats are issued: the 181st draw on a
    * flight key finds none.
    */
  lemma FreeSeatIffRoom(taken: seq<string>)
    requires NoDup(taken)
    requires forall k :: 0 <= k < |taken| ==> IsSeatCode(taken[k])
    ensures HasFreeSeat(taken) <==> |taken| < Capacity
  {
    var all := AllSeatCodes();
    ElementsOfNoDup(taken);
    AllSeatCodesDistinct();
    ElementsOfNoDup(all);
    assert Elements(taken) <= Elements(all);
    if HasFreeSeat(taken) {
      var i :| 0 <= i < Capacity && all[i] !in taken;
      assert Elements(taken) <= Elements(all) - {all[i]};
      SubsetCardinality(Elements(taken), Elements(all) - {all[i]});
    } else {
      assert Elements(all) <= Elements(taken);
      SubsetCardinality(Elements(all), Elements(taken));
    }
  }
}
