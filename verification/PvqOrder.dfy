// What the number of a pulse vector is: its rank. Vectors of one length and one
// sum are numbered in an order that compares their first entries that differ.

module PvqOrder {
  import opened Bits
  import opened OpusPvq

  /** The order: where they first differ, a negative entry comes behind one that is
      not, and of two entries on one side the one further from zero comes first. */
  predicate Before(y: seq<int>, z: seq<int>)
    requires |y| == |z|
  {
    |y| > 0 &&
    if y[0] == z[0] then Before(y[1..], z[1..])
    else if (y[0] < 0) != (z[0] < 0) then z[0] < 0
    else Abs(y[0]) > Abs(z[0])
  }

  lemma {:induction false} Either(y: seq<int>, z: seq<int>)
    requires |y| == |z|
    ensures y == z || Before(y, z) || Before(z, y)
  {
    if y != [] && y[0] == z[0] {
      Either(y[1..], z[1..]);
      assert y == [y[0]] + y[1..] && z == [z[0]] + z[1..];
    }
  }

  lemma SumRest(y: seq<int>)
    requires |y| >= 1
    ensures Sum(y) == Abs(y[0]) + Sum(y[1..]) && (|y| == 1 ==> Sum(y) == Abs(y[0]))
  {
    if |y| == 1 {
      assert y[1..] == [];
    }
  }

  /** The rest of a vector further from zero has a smaller sum, so it lies in an
      earlier level. */
  lemma EarlierLevel(n: nat, a: nat, b: nat, i: nat, j: nat)
    requires Level(n, a, i) && Level(n, b, j) && a < b
    ensures i < j
  {
    UMono(n, a + 1, b);
  }

  lemma {:induction false} OrderUp(y: seq<int>, z: seq<int>)
    requires |y| == |z| >= 1 && Sum(y) == Sum(z) && Before(y, z)
    ensures Index(y) < Index(z)
    decreases |y|, 1
  {
    SumRest(y);
    SumRest(z);
    if |y| > 1 {
      var n, k := |y|, Sum(y);
      var u := U(n, k + 1);
      PlaceBound(y, n, k, u);
      PlaceBound(z, n, k, u);
      if (y[0] < 0) == (z[0] < 0) {
        PlaceUp(y, z);
      }
    }
  }

  lemma {:induction false} PlaceUp(y: seq<int>, z: seq<int>)
    requires |y| == |z| > 1 && Sum(y) == Sum(z) && Before(y, z) && ((y[0] < 0) == (z[0] < 0))
    ensures Place(y) < Place(z)
    decreases |y|, 0
  {
    SumRest(y);
    SumRest(z);
    if y[0] == z[0] {
      OrderUp(y[1..], z[1..]);
    } else {
      PlaceLevel(y);
      PlaceLevel(z);
      EarlierLevel(|y|, Sum(y[1..]), Sum(z[1..]), Place(y), Place(z));
    }
  }

  /** Numbers go up exactly in that order. */
  lemma IndexOrder(y: seq<int>, z: seq<int>)
    requires |y| == |z| >= 1 && Sum(y) == Sum(z)
    ensures Index(y) < Index(z) <==> Before(y, z)
  {
    Either(y, z);
    if Before(y, z) {
      OrderUp(y, z);
    } else if Before(z, y) {
      OrderUp(z, y);
    }
  }

  /** The first vector has all its pulses in front. */
  lemma {:induction false} FirstIs(y: seq<int>, k: nat)
    requires |y| >= 1 && y[0] == k && Sum(y[1..]) == 0
    ensures Sum(y) == k && Index(y) == 0
  {
    SumRest(y);
    if |y| > 1 {
      SumRest(y[1..]);
      FirstIs(y[1..], 0);
      assert U(|y|, 0) == 0;
    }
  }
}
