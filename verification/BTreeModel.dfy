// B-trees of minimum degree two as values, and the sorted list of pairs that one
// stands for.

module BTreeModel {

  // ---- strings by code points

  predicate Less(s: string, t: string) {
    if t == "" then false
    else if s == "" then true
    else s[0] < t[0] || (s[0] == t[0] && Less(s[1..], t[1..]))
  }

  lemma {:induction false} LessTotal(s: string, t: string)
    ensures Less(s, t) || s == t || Less(t, s)
    ensures !(Less(s, t) && Less(t, s)) && !Less(s, s)
  {
    if s != "" {
      LessTotal(s[1..], s[1..]);
    }
    if s != "" && t != "" {
      LessTotal(s[1..], t[1..]);
      if s[0] == t[0] && s[1..] == t[1..] {
        assert s == [s[0]] + s[1..] == t;
      }
    }
  }

  lemma {:induction false} LessTrans(s: string, t: string, u: string)
    requires Less(s, t) && Less(t, u)
    ensures Less(s, u)
  {
    if s != "" && t != "" && u != "" && s[0] == t[0] == u[0] {
      LessTrans(s[1..], t[1..], u[1..]);
    }
  }

  // ---- sorted lists of pairs

  type Pairs<V> = seq<(string, V)>

  /** Every key of s is below k. */
  ghost predicate AllBelow<V>(s: Pairs<V>, k: string) {
    forall i :: 0 <= i < |s| ==> Less(s[i].0, k)
  }

  ghost predicate AllAbove<V>(s: Pairs<V>, k: string) {
    forall i :: 0 <= i < |s| ==> Less(k, s[i].0)
  }

  ghost predicate Sorted<V>(s: Pairs<V>) {
    forall i, j :: 0 <= i < j < |s| ==> Less(s[i].0, s[j].0)
  }

  function Insert<V>(s: Pairs<V>, k: string, v: V): Pairs<V> {
    if s == [] then [(k, v)]
    else if s[0].0 == k then [(k, v)] + s[1..]
    else if Less(k, s[0].0) then [(k, v)] + s
    else [s[0]] + Insert(s[1..], k, v)
  }

  datatype Option<V> = None | Some(value: V)

  function Lookup<V>(s: Pairs<V>, k: string): Option<V> {
    if s == [] then None else if s[0].0 == k then Some(s[0].1) else Lookup(s[1..], k)
  }

  lemma SortedParts<V>(a: Pairs<V>, m: Pairs<V>, b: Pairs<V>)
    requires Sorted(a + m + b)
    ensures Sorted(a) && Sorted(m) && Sorted(b)
  {
    var s := a + m + b;
    forall i, j | 0 <= i < j < |a|
      ensures Less(a[i].0, a[j].0)
    {
      assert s[i] == a[i] && s[j] == a[j];
    }
    forall i, j | 0 <= i < j < |m|
      ensures Less(m[i].0, m[j].0)
    {
      assert s[|a| + i] == m[i] && s[|a| + j] == m[j];
    }
    forall i, j | 0 <= i < j < |b|
      ensures Less(b[i].0, b[j].0)
    {
      assert s[|a| + |m| + i] == b[i] && s[|a| + |m| + j] == b[j];
    }
  }

  /** What lies before a pair of a sorted list is below it, what lies after above. */
  lemma SortedAround<V>(a: Pairs<V>, x: (string, V), b: Pairs<V>)
    requires Sorted(a + [x] + b)
    ensures AllBelow(a, x.0) && AllAbove(b, x.0)
  {
    var s := a + [x] + b;
    assert s[|a|] == x;
    forall i | 0 <= i < |a|
      ensures Less(a[i].0, x.0)
    {
      assert s[i] == a[i];
    }
    forall i | 0 <= i < |b|
      ensures Less(x.0, b[i].0)
    {
      assert s[|a| + 1 + i] == b[i];
    }
  }

  lemma BelowTrans<V>(a: Pairs<V>, k: string, l: string)
    requires AllBelow(a, k) && (k == l || Less(k, l))
    ensures AllBelow(a, l)
  {
    forall i | 0 <= i < |a|
      ensures Less(a[i].0, l)
    {
      if k != l {
        LessTrans(a[i].0, k, l);
      }
    }
  }

  lemma AboveTrans<V>(b: Pairs<V>, k: string, l: string)
    requires AllAbove(b, k) && (k == l || Less(l, k))
    ensures AllAbove(b, l)
  {
    forall i | 0 <= i < |b|
      ensures Less(l, b[i].0)
    {
      if k != l {
        LessTrans(l, k, b[i].0);
      }
    }
  }

  lemma {:induction false} InsertFirst<V>(m: Pairs<V>, b: Pairs<V>, k: string, v: V)
    requires AllAbove(b, k)
    ensures Insert(m + b, k, v) == Insert(m, k, v) + b
  {
    if m != [] {
      assert (m + b)[1..] == m[1..] + b;
      if m[0].0 != k && !Less(k, m[0].0) {
        InsertFirst(m[1..], b, k, v);
      }
    } else {
      assert m + b == b;
      if b != [] {
        LessTotal(k, b[0].0);
      }
    }
  }

  /** A key goes where the smaller ones end and the larger ones begin. */
  lemma {:induction false} InsertMiddle<V>(a: Pairs<V>, m: Pairs<V>, b: Pairs<V>, k: string, v: V)
    requires AllBelow(a, k) && AllAbove(b, k)
    ensures Insert(a + m + b, k, v) == a + Insert(m, k, v) + b
    decreases |a|
  {
    if a == [] {
      assert a + m + b == m + b;
      InsertFirst(m, b, k, v);
    } else {
      var s := a + m + b;
      LessTotal(a[0].0, k);
      assert s[0] == a[0] && s[1..] == a[1..] + m + b;
      InsertMiddle(a[1..], m, b, k, v);
      assert a == [a[0]] + a[1..];
    }
  }

  lemma {:induction false} LookupMiddle<V>(a: Pairs<V>, m: Pairs<V>, b: Pairs<V>, k: string)
    requires AllBelow(a, k) && AllAbove(b, k)
    ensures Lookup(a + m + b, k) == Lookup(m, k)
    decreases |a| + |m| + |b|
  {
    var s := a + m + b;
    if a != [] {
      LessTotal(a[0].0, k);
      assert s[0] == a[0] && s[1..] == a[1..] + m + b;
      LookupMiddle(a[1..], m, b, k);
    } else if m != [] {
      assert s[0] == m[0] && s[1..] == a + m[1..] + b;
      LookupMiddle(a, m[1..], b, k);
    } else if b != [] {
      LessTotal(k, b[0].0);
      assert s[0] == b[0] && s[1..] == a + m + b[1..];
      LookupMiddle(a, m, b[1..], k);
    }
  }

  lemma {:induction false} InsertBounds<V>(s: Pairs<V>, k: string, v: V, l: string)
    requires AllAbove(s, l) && Less(l, k)
    ensures AllAbove(Insert(s, k, v), l)
  {
    if s != [] && s[0].0 != k && !Less(k, s[0].0) {
      InsertBounds(s[1..], k, v, l);
      var rest := Insert(s[1..], k, v);
      forall i | 0 <= i < |rest| + 1
        ensures Less(l, Insert(s, k, v)[i].0)
      {
        if i > 0 {
          assert Insert(s, k, v)[i] == rest[i - 1];
        }
      }
    }
  }

  lemma {:induction false} InsertSorted<V>(s: Pairs<V>, k: string, v: V)
    requires Sorted(s)
    ensures Sorted(Insert(s, k, v))
  {
    if s != [] {
      var x, rest := s[0], s[1..];
      assert s == [] + [x] + rest;
      SortedParts([], [x], rest);
      SortedAround([], x, rest);
      LessTotal(x.0, k);
      if x.0 == k {
        SortedCons((k, v), rest);
      } else if Less(k, x.0) {
        AboveTrans(rest, x.0, k);
        AboveCons(x, rest, k);
        assert [x] + rest == s;
        SortedCons((k, v), s);
      } else {
        InsertSorted(rest, k, v);
        InsertBounds(rest, k, v, x.0);
        SortedCons(x, Insert(rest, k, v));
      }
    }
  }

  lemma AboveCons<V>(x: (string, V), s: Pairs<V>, k: string)
    requires Less(k, x.0) && AllAbove(s, k)
    ensures AllAbove([x] + s, k)
  {
  }

  lemma SortedCons<V>(x: (string, V), s: Pairs<V>)
    requires Sorted(s) && AllAbove(s, x.0)
    ensures Sorted([x] + s)
  {
  }

  lemma {:induction false} LookupInsert<V>(s: Pairs<V>, k: string, v: V, l: string)
    requires Sorted(s)
    ensures Lookup(Insert(s, k, v), l) == if l == k then Some(v) else Lookup(s, l)
  {
    if s != [] {
      assert s == [] + [s[0]] + s[1..];
      SortedParts([], [s[0]], s[1..]);
      if s[0].0 != k && !Less(k, s[0].0) {
        LookupInsert(s[1..], k, v, l);
      }
    }
  }

  // ---- trees

  datatype Tree<V> = Node(leaf: bool, keys: Pairs<V>, kids: seq<Tree<V>>)

  /** All leaves are d levels down; a node has up to three keys, at least one below
      the root, and one more child than keys. */
  ghost predicate Good<V>(t: Tree<V>, d: nat) {
    && |t.keys| <= 3 && t.leaf == (d == 0)
    && if d == 0 then t.kids == []
       else |t.kids| == |t.keys| + 1 && forall i :: 0 <= i < |t.kids| ==> 1 <= |t.kids[i].keys| && Good(t.kids[i], d - 1)
  }

  /** The pairs in order, up to and after child i. */
  function Flat<V>(t: Tree<V>): Pairs<V>
    decreases t, |t.kids| + 1
  {
    if t.leaf || t.kids == [] then t.keys else Upto(t, |t.kids| - 1) + Flat(t.kids[|t.kids| - 1])
  }

  /** The pairs before child i. */
  function Upto<V>(t: Tree<V>, i: nat): Pairs<V>
    requires i < |t.kids|
    decreases t, i
  {
    if i == 0 then [] else Upto(t, i - 1) + Flat(t.kids[i - 1]) + KeyAt(t, i - 1)
  }

  function KeyAt<V>(t: Tree<V>, i: nat): Pairs<V> {
    if i < |t.keys| then [t.keys[i]] else []
  }

  /** The pairs after child i. */
  function From<V>(t: Tree<V>, i: nat): Pairs<V>
    requires i < |t.kids|
    decreases |t.kids| - i
  {
    if i == |t.kids| - 1 then [] else KeyAt(t, i) + Flat(t.kids[i + 1]) + From(t, i + 1)
  }

  lemma {:induction false} FlatAt<V>(t: Tree<V>, i: nat)
    requires !t.leaf && i < |t.kids|
    ensures Flat(t) == Upto(t, i) + Flat(t.kids[i]) + From(t, i)
    decreases |t.kids| - i
  {
    if i < |t.kids| - 1 {
      FlatAt(t, i + 1);
      Regroup(Upto(t, i), Flat(t.kids[i]), KeyAt(t, i), Flat(t.kids[i + 1]), From(t, i + 1));
    }
  }

  lemma Regroup<V>(a: Pairs<V>, m: Pairs<V>, k: Pairs<V>, m': Pairs<V>, b: Pairs<V>)
    ensures (a + m + k) + m' + b == a + m + (k + m' + b)
    ensures a + (m + k + m') + b == a + m + (k + m' + b)
    ensures (a + m + k) + m' + b == (a + m) + k + (m' + b)
  {
  }

  /** The list with key i in the middle. */
  lemma KeyMiddle<V>(t: Tree<V>, i: nat)
    requires !t.leaf && i < |t.keys| && |t.kids| == |t.keys| + 1
    ensures Flat(t) == (Upto(t, i) + Flat(t.kids[i])) + [t.keys[i]] + (Flat(t.kids[i + 1]) + From(t, i + 1))
  {
    FlatAt(t, i + 1);
    Regroup(Upto(t, i), Flat(t.kids[i]), [t.keys[i]], Flat(t.kids[i + 1]), From(t, i + 1));
  }
}
