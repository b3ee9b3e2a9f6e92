// Looking up and putting pairs in a B-tree: what the list it stands for becomes,
// and the shape it keeps.

module BTreeOps {
  import opened BTreeModel

  // ---- a leaf

  /** Where the key is, or the length. */
  function IndexOf<V>(keys: Pairs<V>, k: string): (i: nat)
    ensures i <= |keys|
    ensures i < |keys| ==> keys[i].0 == k
  {
    if keys == [] || keys[0].0 == k then 0 else 1 + IndexOf(keys[1..], k)
  }

  /** A stable sort by key. */
  function SortPairs<V>(s: Pairs<V>): Pairs<V> {
    if s == [] then [] else Place(SortPairs(s[..|s| - 1]), s[|s| - 1])
  }

  function Place<V>(s: Pairs<V>, x: (string, V)): Pairs<V> {
    if s == [] then [x] else if Less(x.0, s[0].0) then [x] + s else [s[0]] + Place(s[1..], x)
  }

  function LeafPut<V>(keys: Pairs<V>, k: string, v: V): Pairs<V> {
    var i := IndexOf(keys, k);
    if i < |keys| then keys[i := (k, v)] else SortPairs(keys + [(k, v)])
  }

  lemma {:induction false} PlaceLast<V>(s: Pairs<V>, x: (string, V))
    requires AllBelow(s, x.0)
    ensures Place(s, x) == s + [x]
  {
    if s != [] {
      LessTotal(s[0].0, x.0);
      PlaceLast(s[1..], x);
    }
  }

  lemma {:induction false} SortedStays<V>(s: Pairs<V>)
    requires Sorted(s)
    ensures SortPairs(s) == s
  {
    if s != [] {
      var front, x := s[..|s| - 1], s[|s| - 1];
      SortedStays(front);
      PlaceLast(front, x);
    }
  }

  lemma {:induction false} PlaceInsert<V>(s: Pairs<V>, k: string, v: V)
    requires IndexOf(s, k) == |s|
    ensures Place(s, (k, v)) == Insert(s, k, v)
  {
    if s != [] {
      PlaceInsert(s[1..], k, v);
    }
  }

  lemma {:induction false} ReplaceInsert<V>(s: Pairs<V>, k: string, v: V, i: nat)
    requires Sorted(s) && i < |s| && s[i].0 == k
    ensures s[i := (k, v)] == Insert(s, k, v)
  {
    var a, b := s[..i], s[i + 1..];
    assert s == a + [s[i]] + b;
    SortedAround(a, s[i], b);
    InsertMiddle(a, [s[i]], b, k, v);
    assert Insert([s[i]], k, v) == [(k, v)];
  }

  lemma LeafPutInsert<V>(keys: Pairs<V>, k: string, v: V)
    requires Sorted(keys)
    ensures LeafPut(keys, k, v) == Insert(keys, k, v)
  {
    var i := IndexOf(keys, k);
    if i < |keys| {
      ReplaceInsert(keys, k, v, i);
    } else {
      SortedStays(keys);
      assert (keys + [(k, v)])[..|keys|] == keys;
      PlaceInsert(keys, k, v);
    }
  }

  lemma {:induction false} InsertSize<V>(s: Pairs<V>, k: string, v: V)
    ensures |s| <= |Insert(s, k, v)| <= |s| + 1
  {
    if s != [] {
      InsertSize(s[1..], k, v);
    }
  }

  // ---- an inner node

  /** How many of the first n keys do not come after k, looking from the end. */
  function Slot<V>(keys: Pairs<V>, k: string, n: nat): (s: nat)
    requires n <= |keys|
    ensures s <= n
    ensures s > 0 ==> !Less(k, keys[s - 1].0)
    ensures s < n ==> Less(k, keys[s].0)
  {
    if n == 0 || !Less(k, keys[n - 1].0) then n else Slot(keys, k, n - 1)
  }

  /** The first key from i on that is not below k. */
  function Stop<V>(keys: Pairs<V>, k: string, i: nat): (s: nat)
    requires i <= |keys| && (i > 0 ==> Less(keys[i - 1].0, k))
    ensures i <= s <= |keys|
    ensures s > 0 ==> Less(keys[s - 1].0, k)
    ensures s < |keys| ==> !Less(keys[s].0, k)
    decreases |keys| - i
  {
    if i < |keys| && Less(keys[i].0, k) then Stop(keys, k, i + 1) else i
  }

  predicate Full<V>(t: Tree<V>) {
    |t.keys| == 3
  }

  function LeftHalf<V>(y: Tree<V>): Tree<V>
    requires Full(y) && (!y.leaf ==> |y.kids| == 4)
  {
    Node(y.leaf, y.keys[..1], if y.leaf then y.kids else y.kids[..2])
  }

  function RightHalf<V>(y: Tree<V>): Tree<V>
    requires Full(y) && (!y.leaf ==> |y.kids| == 4)
  {
    Node(y.leaf, y.keys[2..], if y.leaf then [] else y.kids[2..])
  }

  predicate Splits<V>(t: Tree<V>, i: nat) {
    i < |t.kids| && i <= |t.keys| && Full(t.kids[i]) && (!t.kids[i].leaf ==> |t.kids[i].kids| == 4)
  }

  /** The middle key of a full child moves up between its two halves. */
  function SplitChild<V>(t: Tree<V>, i: nat): Tree<V>
    requires Splits(t, i)
  {
    var y := t.kids[i];
    Node(t.leaf, t.keys[..i] + [y.keys[1]] + t.keys[i..], t.kids[..i] + [LeftHalf(y), RightHalf(y)] + t.kids[i + 1..])
  }

  function Replace<V>(t: Tree<V>, i: nat, k: string, v: V): Tree<V>
    requires i < |t.keys|
  {
    t.(keys := t.keys[i := (k, v)])
  }

  function WithKid<V>(t: Tree<V>, i: nat, c: Tree<V>): Tree<V>
    requires i < |t.kids|
  {
    t.(kids := t.kids[i := c])
  }

  // ---- what these do to the list

  /** Two nodes that agree on their first i children and keys. */
  lemma {:induction false} UptoSame<V>(t: Tree<V>, u: Tree<V>, i: nat)
    requires i < |t.kids| && i < |u.kids| && i <= |t.keys| && i <= |u.keys|
    requires forall j :: 0 <= j < i ==> t.kids[j] == u.kids[j] && t.keys[j] == u.keys[j]
    ensures Upto(t, i) == Upto(u, i)
  {
    if i > 0 {
      UptoSame(t, u, i - 1);
    }
  }

  /** Two nodes that agree from child i and child j on. */
  lemma {:induction false} FromSame<V>(t: Tree<V>, u: Tree<V>, i: nat, j: nat)
    requires i < |t.kids| == |t.keys| + 1 && j < |u.kids| == |u.keys| + 1
    requires t.kids[i + 1..] == u.kids[j + 1..] && t.keys[i..] == u.keys[j..]
    ensures From(t, i) == From(u, j)
    decreases |t.kids| - i
  {
    assert |t.keys[i..]| == |u.keys[j..]|;
    if i < |t.kids| - 1 {
      assert t.keys[i..][0] == u.keys[j..][0] && t.kids[i + 1..][0] == u.kids[j + 1..][0];
      assert t.keys[i..][1..] == t.keys[i + 1..] && u.keys[j..][1..] == u.keys[j + 1..];
      assert t.kids[i + 1..][1..] == t.kids[i + 1 + 1..] && u.kids[j + 1..][1..] == u.kids[j + 1 + 1..];
      FromSame(t, u, i + 1, j + 1);
    }
  }

  lemma FlatTwo<V>(t: Tree<V>)
    requires !t.leaf && |t.keys| == 1 && |t.kids| == 2
    ensures Flat(t) == Flat(t.kids[0]) + [t.keys[0]] + Flat(t.kids[1])
  {
    KeyMiddle(t, 0);
    assert Upto(t, 0) == [] && From(t, 1) == [];
  }

  lemma FlatFour<V>(t: Tree<V>)
    requires !t.leaf && |t.keys| == 3 && |t.kids| == 4
    ensures Flat(t) == (Flat(t.kids[0]) + [t.keys[0]] + Flat(t.kids[1])) + [t.keys[1]]
                       + (Flat(t.kids[2]) + [t.keys[2]] + Flat(t.kids[3]))
  {
    KeyMiddle(t, 1);
    assert Upto(t, 0) == [] && From(t, 3) == [];
    assert Upto(t, 1) == Flat(t.kids[0]) + [t.keys[0]];
    assert From(t, 2) == [t.keys[2]] + Flat(t.kids[3]);
    assert Flat(t.kids[2]) + From(t, 2) == Flat(t.kids[2]) + [t.keys[2]] + Flat(t.kids[3]);
  }

  lemma FlatHalves<V>(y: Tree<V>, d: nat)
    requires Good(y, d) && Full(y)
    ensures Flat(y) == Flat(LeftHalf(y)) + [y.keys[1]] + Flat(RightHalf(y))
  {
    if !y.leaf {
      FlatFour(y);
      FlatTwo(LeftHalf(y));
      FlatTwo(RightHalf(y));
    }
  }

  lemma SplitFlat<V>(t: Tree<V>, i: nat, d: nat)
    requires !t.leaf && |t.kids| == |t.keys| + 1 && Splits(t, i) && Good(t.kids[i], d)
    ensures Flat(SplitChild(t, i)) == Flat(t)
  {
    var y, u := t.kids[i], SplitChild(t, i);
    var l, r := LeftHalf(y), RightHalf(y);
    FlatHalves(y, d);
    FlatAt(t, i);
    FlatAt(u, i);
    UptoSame(t, u, i);
    assert u.kids[i] == l && u.kids[i + 1] == r && u.keys[i] == y.keys[1];
    assert t.kids[i + 1..] == u.kids[i + 1 + 1..] && t.keys[i..] == u.keys[i + 1..];
    FromSame(t, u, i, i + 1);
    Regroup(Upto(t, i), Flat(l), [y.keys[1]], Flat(r), From(t, i));
  }

  lemma HalvesGood<V>(y: Tree<V>, d: nat)
    requires Good(y, d) && Full(y)
    ensures Good(LeftHalf(y), d) && Good(RightHalf(y), d) && |LeftHalf(y).keys| == 1 == |RightHalf(y).keys|
  {
    if d > 0 {
      var r := RightHalf(y);
      forall j | 0 <= j < |r.kids|
        ensures 1 <= |r.kids[j].keys| && Good(r.kids[j], d - 1)
      {
        assert r.kids[j] == y.kids[j + 2];
      }
    }
  }

  /** A node that has room for a key, or a root that is to get its first. */
  lemma SplitGood<V>(t: Tree<V>, i: nat, d: nat)
    requires d > 0 && !t.leaf && |t.keys| < 3 && |t.kids| == |t.keys| + 1 && Splits(t, i)
    requires forall j :: 0 <= j < |t.kids| ==> 1 <= |t.kids[j].keys| && Good(t.kids[j], d - 1)
    ensures Good(SplitChild(t, i), d) && !Full(SplitChild(t, i).kids[i]) && !Full(SplitChild(t, i).kids[i + 1])
  {
    var u := SplitChild(t, i);
    HalvesGood(t.kids[i], d - 1);
    forall j | 0 <= j < |u.kids|
      ensures 1 <= |u.kids[j].keys| && Good(u.kids[j], d - 1)
    {
      if j > i + 1 {
        assert u.kids[j] == t.kids[j - 1];
      }
    }
  }

  lemma ReplaceFlat<V>(t: Tree<V>, i: nat, k: string, v: V)
    requires !t.leaf && i < |t.keys| && |t.kids| == |t.keys| + 1 && t.keys[i].0 == k && Sorted(Flat(t))
    ensures Flat(Replace(t, i, k, v)) == Insert(Flat(t), k, v)
  {
    var u := Replace(t, i, k, v);
    KeyMiddle(t, i);
    KeyMiddle(u, i);
    UptoSame(t, u, i);
    assert t.kids[i + 1 + 1..] == u.kids[i + 1 + 1..] && t.keys[i + 1..] == u.keys[i + 1..];
    FromSame(t, u, i + 1, i + 1);
    var a, b := Upto(t, i) + Flat(t.kids[i]), Flat(t.kids[i + 1]) + From(t, i + 1);
    SortedAround(a, t.keys[i], b);
    InsertMiddle(a, [t.keys[i]], b, k, v);
    assert Insert([t.keys[i]], k, v) == [(k, v)];
  }

  /** The key belongs in child i. */
  ghost predicate Belongs<V>(t: Tree<V>, i: nat, k: string) {
    && i < |t.kids| == |t.keys| + 1
    && (i > 0 ==> Less(t.keys[i - 1].0, k)) && (i < |t.keys| ==> Less(k, t.keys[i].0))
  }

  lemma Below<V>(t: Tree<V>, i: nat, k: string)
    requires !t.leaf && Belongs(t, i, k) && Sorted(Flat(t))
    ensures AllBelow(Upto(t, i), k)
  {
    if i > 0 {
      KeyMiddle(t, i - 1);
      BelowKey(Upto(t, i - 1) + Flat(t.kids[i - 1]), t.keys[i - 1], Flat(t.kids[i]) + From(t, i), k);
    }
  }

  lemma BelowKey<V>(a: Pairs<V>, x: (string, V), b: Pairs<V>, k: string)
    requires Sorted(a + [x] + b) && Less(x.0, k)
    ensures AllBelow(a + [x], k)
  {
    SortedAround(a, x, b);
    BelowTrans(a, x.0, k);
  }

  lemma Above<V>(t: Tree<V>, i: nat, k: string)
    requires !t.leaf && Belongs(t, i, k) && Sorted(Flat(t))
    ensures AllAbove(From(t, i), k)
  {
    if i < |t.keys| {
      var x := t.keys[i];
      KeyMiddle(t, i);
      var b := Flat(t.kids[i + 1]) + From(t, i + 1);
      SortedAround(Upto(t, i) + Flat(t.kids[i]), x, b);
      AboveTrans(b, x.0, k);
      assert From(t, i) == [x] + b;
    }
  }

  lemma Around<V>(t: Tree<V>, i: nat, k: string)
    requires !t.leaf && Belongs(t, i, k) && Sorted(Flat(t))
    ensures AllBelow(Upto(t, i), k) && AllAbove(From(t, i), k) && Sorted(Flat(t.kids[i]))
  {
    FlatAt(t, i);
    SortedParts(Upto(t, i), Flat(t.kids[i]), From(t, i));
    Below(t, i, k);
    Above(t, i, k);
  }

  lemma KidFlat<V>(t: Tree<V>, i: nat, c: Tree<V>, k: string, v: V)
    requires !t.leaf && Belongs(t, i, k) && Sorted(Flat(t)) && Flat(c) == Insert(Flat(t.kids[i]), k, v)
    ensures Flat(WithKid(t, i, c)) == Insert(Flat(t), k, v)
  {
    var u := WithKid(t, i, c);
    Around(t, i, k);
    FlatAt(t, i);
    FlatAt(u, i);
    UptoSame(t, u, i);
    assert t.kids[i + 1..] == u.kids[i + 1..];
    FromSame(t, u, i, i);
    InsertMiddle(Upto(t, i), Flat(t.kids[i]), From(t, i), k, v);
  }

  // ---- the operations

  /** The value of a key in a tree d levels deep. */
  function Get<V>(t: Tree<V>, d: nat, k: string): Option<V>
    requires Good(t, d)
    decreases d
  {
    var i := Stop(t.keys, k, 0);
    if i < |t.keys| && t.keys[i].0 == k then Some(t.keys[i].1)
    else if t.leaf then None
    else Get(t.kids[i], d - 1, k)
  }

  /** Puts a pair into a tree whose root is not full. */
  function InsertNonfull<V>(t: Tree<V>, d: nat, k: string, v: V): Tree<V>
    requires Good(t, d) && !Full(t)
    decreases d, 1
  {
    if t.leaf then t.(keys := LeafPut(t.keys, k, v))
    else
      var s := Slot(t.keys, k, |t.keys|);
      if s > 0 && t.keys[s - 1].0 == k then Replace(t, s - 1, k, v)
      else if !Full(t.kids[s]) then WithKid(t, s, InsertNonfull(t.kids[s], d - 1, k, v))
      else
        assert Good(t.kids[s], d - 1);
        SplitGood(t, s, d);
        InsertHalf(SplitChild(t, s), s, d, k, v)
  }

  /** Puts a pair into one of the two halves at s, or in place of the key between. */
  function InsertHalf<V>(u: Tree<V>, s: nat, d: nat, k: string, v: V): Tree<V>
    requires d > 0 && Good(u, d) && s < |u.keys| && !Full(u.kids[s]) && !Full(u.kids[s + 1])
    decreases d, 0
  {
    if k == u.keys[s].0 then Replace(u, s, k, v)
    else
      var i := if Less(u.keys[s].0, k) then s + 1 else s;
      WithKid(u, i, InsertNonfull(u.kids[i], d - 1, k, v))
  }

  function Put<V>(root: Tree<V>, d: nat, k: string, v: V): Tree<V>
    requires Good(root, d)
  {
    if Full(root) then
      var top := Node(false, [], [root]);
      SplitGood(top, 0, d + 1);
      InsertNonfull(SplitChild(top, 0), d + 1, k, v)
    else InsertNonfull(root, d, k, v)
  }

  /** The shape is kept, no node loses keys, and the list gets the pair. */
  ghost predicate Holds<V>(r: Tree<V>, t: Tree<V>, d: nat, k: string, v: V) {
    Good(r, d) && |r.keys| >= |t.keys| && Flat(r) == Insert(Flat(t), k, v) && (|t.keys| == 0 ==> |r.keys| > 0)
  }

  lemma KidGood<V>(t: Tree<V>, i: nat, c: Tree<V>, d: nat)
    requires d > 0 && Good(t, d) && i < |t.kids| && Good(c, d - 1) && |c.keys| >= 1
    ensures Good(WithKid(t, i, c), d)
  {
  }

  lemma KidHolds<V>(t: Tree<V>, i: nat, c: Tree<V>, d: nat, k: string, v: V)
    requires d > 0 && Good(t, d) && Belongs(t, i, k) && Sorted(Flat(t)) && |t.keys| > 0 && Holds(c, t.kids[i], d - 1, k, v)
    ensures Holds(WithKid(t, i, c), t, d, k, v)
  {
    KidFlat(t, i, c, k, v);
    KidGood(t, i, c, d);
  }

  lemma ReplaceHolds<V>(t: Tree<V>, i: nat, d: nat, k: string, v: V)
    requires d > 0 && Good(t, d) && i < |t.keys| && t.keys[i].0 == k && Sorted(Flat(t))
    ensures Holds(Replace(t, i, k, v), t, d, k, v)
  {
    ReplaceFlat(t, i, k, v);
  }

  lemma SlotBelongs<V>(t: Tree<V>, d: nat, s: nat, k: string)
    requires Good(t, d) && d > 0 && s == Slot(t.keys, k, |t.keys|) && (s > 0 ==> t.keys[s - 1].0 != k)
    ensures Belongs(t, s, k)
  {
    if s > 0 {
      LessTotal(k, t.keys[s - 1].0);
    }
  }

  lemma SplitBelongs<V>(t: Tree<V>, s: nat, k: string)
    requires Splits(t, s) && Belongs(t, s, k)
    ensures var u := SplitChild(t, s);
            k != u.keys[s].0 ==> Belongs(u, if Less(u.keys[s].0, k) then s + 1 else s, k)
  {
    var u := SplitChild(t, s);
    LessTotal(k, u.keys[s].0);
    assert s > 0 ==> u.keys[s - 1] == t.keys[s - 1];
    assert s < |t.keys| ==> u.keys[s + 1] == t.keys[s];
  }

  /** A node after the split of a full child, ready to go on. */
  lemma SplitReady<V>(t: Tree<V>, s: nat, d: nat, k: string)
    requires d > 0 && Good(t, d) && !Full(t) && Belongs(t, s, k) && Full(t.kids[s])
    ensures Splits(t, s)
    ensures var u := SplitChild(t, s);
            && Good(u, d) && s < |u.keys| == |t.keys| + 1 && !Full(u.kids[s]) && !Full(u.kids[s + 1]) && Flat(u) == Flat(t)
            && (k != u.keys[s].0 ==> Belongs(u, if Less(u.keys[s].0, k) then s + 1 else s, k))
  {
    assert Good(t.kids[s], d - 1);
    SplitGood(t, s, d);
    SplitFlat(t, s, d - 1);
    SplitBelongs(t, s, k);
  }

  lemma {:induction false} InsertHolds<V>(t: Tree<V>, d: nat, k: string, v: V)
    requires Good(t, d) && !Full(t) && (d > 0 ==> |t.keys| > 0) && Sorted(Flat(t))
    ensures Holds(InsertNonfull(t, d, k, v), t, d, k, v)
    decreases d, 3
  {
    if t.leaf {
      LeafHolds(t, k, v);
    } else {
      InnerHolds(t, d, Slot(t.keys, k, |t.keys|), k, v);
    }
  }

  lemma {:induction false} InnerHolds<V>(t: Tree<V>, d: nat, s: nat, k: string, v: V)
    requires d > 0 && Good(t, d) && !Full(t) && |t.keys| > 0 && Sorted(Flat(t)) && s == Slot(t.keys, k, |t.keys|)
    ensures Holds(InsertNonfull(t, d, k, v), t, d, k, v)
    decreases d, 2
  {
    if s > 0 && t.keys[s - 1].0 == k {
      ReplaceHolds(t, s - 1, d, k, v);
    } else {
      SlotBelongs(t, d, s, k);
      if Full(t.kids[s]) {
        SplitReady(t, s, d, k);
        HalfHolds(SplitChild(t, s), s, d, k, v);
        SplitHolds(InsertHalf(SplitChild(t, s), s, d, k, v), t, s, d, k, v);
      } else {
        KidInsert(t, s, d, k, v);
      }
    }
  }

  lemma SplitHolds<V>(r: Tree<V>, t: Tree<V>, s: nat, d: nat, k: string, v: V)
    requires Splits(t, s) && |t.keys| > 0 && |SplitChild(t, s).keys| == |t.keys| + 1 && Flat(SplitChild(t, s)) == Flat(t)
    requires Holds(r, SplitChild(t, s), d, k, v)
    ensures Holds(r, t, d, k, v)
  {
  }

  lemma LeafHolds<V>(t: Tree<V>, k: string, v: V)
    requires Good(t, 0) && !Full(t) && Sorted(Flat(t))
    ensures Holds(InsertNonfull(t, 0, k, v), t, 0, k, v)
  {
    LeafPutInsert(t.keys, k, v);
    InsertSize(t.keys, k, v);
  }

  lemma {:induction false} KidInsert<V>(t: Tree<V>, i: nat, d: nat, k: string, v: V)
    requires d > 0 && Good(t, d) && |t.keys| > 0 && Belongs(t, i, k) && Sorted(Flat(t)) && !Full(t.kids[i])
    ensures Holds(WithKid(t, i, InsertNonfull(t.kids[i], d - 1, k, v)), t, d, k, v)
    decreases d, 0
  {
    KidSorted(t, i, k);
    InsertHolds(t.kids[i], d - 1, k, v);
    KidHolds(t, i, InsertNonfull(t.kids[i], d - 1, k, v), d, k, v);
  }

  lemma KidSorted<V>(t: Tree<V>, i: nat, k: string)
    requires !t.leaf && Belongs(t, i, k) && Sorted(Flat(t))
    ensures Sorted(Flat(t.kids[i]))
  {
    Around(t, i, k);
  }

  lemma {:induction false} HalfHolds<V>(u: Tree<V>, s: nat, d: nat, k: string, v: V)
    requires d > 0 && Good(u, d) && s < |u.keys| && !Full(u.kids[s]) && !Full(u.kids[s + 1]) && Sorted(Flat(u))
    requires k != u.keys[s].0 ==> Belongs(u, if Less(u.keys[s].0, k) then s + 1 else s, k)
    ensures Holds(InsertHalf(u, s, d, k, v), u, d, k, v)
    decreases d, 1
  {
    if k == u.keys[s].0 {
      ReplaceHolds(u, s, d, k, v);
    } else {
      KidInsert(u, if Less(u.keys[s].0, k) then s + 1 else s, d, k, v);
    }
  }

  lemma Onward<V>(t: Tree<V>, i: nat, out: Pairs<V>)
    requires i + 1 < |t.kids| && i < |t.keys|
    ensures out + Upto(t, i) + Flat(t.kids[i]) + [t.keys[i]] == out + Upto(t, i + 1)
  {
  }

  lemma Last<V>(t: Tree<V>, out: Pairs<V>)
    requires !t.leaf && t.kids != []
    ensures out + Upto(t, |t.kids| - 1) + Flat(t.kids[|t.kids| - 1]) == out + Flat(t)
  {
  }

  /** The pairs in the first i children. */
  function KidCount<V>(t: Tree<V>, i: nat): nat
    requires i <= |t.kids|
  {
    if i == 0 then 0 else KidCount(t, i - 1) + |Flat(t.kids[i - 1])|
  }

  lemma {:induction false} UptoCount<V>(t: Tree<V>, i: nat)
    requires i < |t.kids| && i <= |t.keys|
    ensures |Upto(t, i)| == KidCount(t, i) + i
  {
    if i > 0 {
      UptoCount(t, i - 1);
    }
  }

  lemma CountAll<V>(t: Tree<V>, d: nat)
    requires Good(t, d)
    ensures |Flat(t)| == |t.keys| + KidCount(t, |t.kids|)
  {
    if d > 0 {
      UptoCount(t, |t.kids| - 1);
    }
  }

  // ---- what a user of the tree sees

  /** Looking a key up finds it in the list. */
  lemma {:induction false} GetLooksUp<V>(t: Tree<V>, d: nat, k: string)
    requires Good(t, d) && Sorted(Flat(t))
    ensures Get(t, d, k) == Lookup(Flat(t), k)
    decreases d
  {
    var i := Stop(t.keys, k, 0);
    if i < |t.keys| && t.keys[i].0 == k {
      KeyFound(t, d, i);
    } else {
      StopAbove(t.keys, i, k);
      if t.leaf {
        LeafMisses(t.keys, i, k);
      } else {
        KidLooksUp(t, i, k);
        GetLooksUp(t.kids[i], d - 1, k);
      }
    }
  }

  lemma StopAbove<V>(keys: Pairs<V>, i: nat, k: string)
    requires i < |keys| ==> !Less(keys[i].0, k) && keys[i].0 != k
    ensures i < |keys| ==> Less(k, keys[i].0)
  {
    if i < |keys| {
      LessTotal(k, keys[i].0);
    }
  }

  lemma KeyFound<V>(t: Tree<V>, d: nat, i: nat)
    requires Good(t, d) && Sorted(Flat(t)) && i < |t.keys|
    ensures Lookup(Flat(t), t.keys[i].0) == Some(t.keys[i].1)
  {
    if t.leaf {
      assert t.keys == t.keys[..i] + [t.keys[i]] + t.keys[i + 1..];
      FoundAt(t.keys[..i], t.keys[i], t.keys[i + 1..]);
    } else {
      KeyMiddle(t, i);
      FoundAt(Upto(t, i) + Flat(t.kids[i]), t.keys[i], Flat(t.kids[i + 1]) + From(t, i + 1));
    }
  }

  lemma KidLooksUp<V>(t: Tree<V>, i: nat, k: string)
    requires !t.leaf && Belongs(t, i, k) && Sorted(Flat(t))
    ensures Lookup(Flat(t), k) == Lookup(Flat(t.kids[i]), k) && Sorted(Flat(t.kids[i]))
  {
    Around(t, i, k);
    FlatAt(t, i);
    LookupMiddle(Upto(t, i), Flat(t.kids[i]), From(t, i), k);
  }

  lemma FoundAt<V>(a: Pairs<V>, x: (string, V), b: Pairs<V>)
    requires Sorted(a + [x] + b)
    ensures Lookup(a + [x] + b, x.0) == Some(x.1)
  {
    SortedAround(a, x, b);
    LookupMiddle(a, [x], b, x.0);
  }

  lemma LeafMisses<V>(s: Pairs<V>, i: nat, k: string)
    requires Sorted(s) && i <= |s|
    requires (i > 0 ==> Less(s[i - 1].0, k)) && (i < |s| ==> Less(k, s[i].0))
    ensures Lookup(s, k) == None
  {
    var a, b := s[..i], s[i..];
    assert s == a + [] + b;
    forall j | 0 <= j < |a|
      ensures Less(a[j].0, k)
    {
      if j < i - 1 {
        LessTrans(s[j].0, s[i - 1].0, k);
      }
    }
    forall j | 0 <= j < |b|
      ensures Less(k, b[j].0)
    {
      if j > 0 {
        LessTrans(k, s[i].0, s[i + j].0);
      }
    }
    LookupMiddle(a, [], b, k);
  }

  /** A tree that puts can reach: some depth has it balanced, and it is in order. */
  ghost predicate Tidy<V>(t: Tree<V>, d: nat) {
    Good(t, d) && (d > 0 ==> |t.keys| > 0) && Sorted(Flat(t))
  }

  /** A put keeps the shape and the order; the tree gets deeper only at a full root. */
  lemma PutTidy<V>(root: Tree<V>, d: nat, k: string, v: V)
    requires Tidy(root, d)
    ensures Tidy(Put(root, d, k, v), if Full(root) then d + 1 else d)
    ensures Flat(Put(root, d, k, v)) == Insert(Flat(root), k, v)
  {
    if Full(root) {
      PutFull(root, d, d + 1, k, v);
    } else {
      InsertTidy(root, d, k, v);
    }
  }

  lemma PutFull<V>(root: Tree<V>, d: nat, e: nat, k: string, v: V)
    requires Tidy(root, d) && Full(root) && e == d + 1
    ensures Tidy(Put(root, d, k, v), e)
    ensures Flat(Put(root, d, k, v)) == Insert(Flat(root), k, v)
  {
    RootSplit(root, d);
    var top := SplitChild(Node(false, [], [root]), 0);
    InsertTidy(top, e, k, v);
    assert Put(root, d, k, v) == InsertNonfull(top, e, k, v);
  }

  lemma InsertTidy<V>(t: Tree<V>, d: nat, k: string, v: V)
    requires Tidy(t, d) && !Full(t)
    ensures Tidy(InsertNonfull(t, d, k, v), d) && Flat(InsertNonfull(t, d, k, v)) == Insert(Flat(t), k, v)
  {
    InsertHolds(t, d, k, v);
    InsertSorted(Flat(t), k, v);
  }

  lemma RootSplit<V>(root: Tree<V>, d: nat)
    requires Good(root, d) && Full(root)
    ensures Splits(Node(false, [], [root]), 0)
    ensures var top := SplitChild(Node(false, [], [root]), 0);
            Good(top, d + 1) && |top.keys| == 1 && Flat(top) == Flat(root)
  {
    var top := Node(false, [], [root]);
    assert Upto(top, 0) == [] && Flat(top) == Flat(root);
    SplitGood(top, 0, d + 1);
    SplitFlat(top, 0, d);
  }

  /** After a put the key has its value, and every other key what it had. */
  lemma GetPut<V>(root: Tree<V>, d: nat, k: string, v: V, l: string)
    requires Tidy(root, d)
    ensures Tidy(Put(root, d, k, v), if Full(root) then d + 1 else d)
    ensures Get(Put(root, d, k, v), if Full(root) then d + 1 else d, l) == if l == k then Some(v) else Get(root, d, l)
  {
    PutTidy(root, d, k, v);
    GetLooksUp(root, d, l);
    GetLooksUp(Put(root, d, k, v), if Full(root) then d + 1 else d, l);
    LookupInsert(Flat(root), k, v, l);
  }
}
