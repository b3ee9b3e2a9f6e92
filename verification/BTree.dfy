// The B-tree in memory: nodes whose lists of keys and children change in place.
// Each node keeps the tree it stands for.

module BTree {
  import opened BTreeModel
  import O = BTreeOps

  /** Nodes that share nothing, inside a region, and the trees they stand for. */
  ghost predicate Stands<V>(kids: seq<BNode<V>>, trees: seq<Tree<V>>, region: set<object>)
    reads region
    decreases region, 1
  {
    && |kids| == |trees|
    && (forall i :: 0 <= i < |kids| ==>
          kids[i] in region && kids[i].Repr <= region && kids[i].Valid() && kids[i].tree == trees[i])
    && (forall i, j :: 0 <= i < j < |kids| ==> kids[i].Repr !! kids[j].Repr)
  }

  /** What the nodes from i to j stand on. */
  ghost function Region<V>(kids: seq<BNode<V>>, i: nat, j: nat): set<object>
    requires i <= j <= |kids|
    reads kids
  {
    set k, o | i <= k < j && o in kids[k].Repr :: o
  }

  lemma Slice<V>(kids: seq<BNode<V>>, trees: seq<Tree<V>>, region: set<object>, i: nat, j: nat)
    requires Stands(kids, trees, region) && i <= j <= |kids|
    ensures Region(kids, i, j) <= region && Stands(kids[i..j], trees[i..j], Region(kids, i, j))
  {
    var part := kids[i..j];
    forall k | 0 <= k < |part|
      ensures part[k] in Region(kids, i, j) && part[k].Repr <= Region(kids, i, j)
    {
      assert part[k] == kids[i + k] && kids[i + k].Valid() && kids[i + k] in kids[i + k].Repr;
    }
  }

  lemma Cut<V>(kids: seq<BNode<V>>, trees: seq<Tree<V>>, region: set<object>, i: nat) returns (left: set<object>, right: set<object>)
    requires Stands(kids, trees, region) && i <= |kids|
    ensures left <= region && right <= region && left !! right
    ensures Stands(kids[..i], trees[..i], left) && Stands(kids[i..], trees[i..], right)
  {
    left, right := Region(kids, 0, i), Region(kids, i, |kids|);
    Slice(kids, trees, region, 0, i);
    Slice(kids, trees, region, i, |kids|);
    assert kids[0..i] == kids[..i] && kids[i..|kids|] == kids[i..] && trees[0..i] == trees[..i] && trees[i..|kids|] == trees[i..];
  }

  lemma Join<V>(a: seq<BNode<V>>, at: seq<Tree<V>>, left: set<object>, b: seq<BNode<V>>, bt: seq<Tree<V>>, right: set<object>)
    requires Stands(a, at, left) && Stands(b, bt, right) && left !! right
    ensures Stands(a + b, at + bt, left + right)
  {
    var c := a + b;
    forall i, j | 0 <= i < j < |c|
      ensures c[i].Repr !! c[j].Repr
    {
      if i < |a| <= j {
        assert a[i].Repr <= left && b[j - |a|].Repr <= right;
      } else if |a| <= i {
        assert b[i - |a|].Repr !! b[j - |a|].Repr;
      }
    }
  }

  lemma One<V>(y: BNode<V>)
    requires y.Valid()
    ensures Stands([y], [y.tree], y.Repr)
  {
  }

  /** Nodes before, one node, nodes after. */
  lemma Around<V>(a: seq<BNode<V>>, at: seq<Tree<V>>, left: set<object>, y: BNode<V>, b: seq<BNode<V>>, bt: seq<Tree<V>>, right: set<object>)
    requires Stands(a, at, left) && y.Valid() && Stands(b, bt, right)
    requires left !! right && y.Repr !! left && y.Repr !! right
    ensures Stands(a + [y] + b, at + [y.tree] + bt, left + y.Repr + right)
  {
    One(y);
    Join(a, at, left, [y], [y.tree], y.Repr);
    Join(a + [y], at + [y.tree], left + y.Repr, b, bt, right);
  }

  /** Nodes before, two nodes, nodes after. */
  lemma Beside<V>(a: seq<BNode<V>>, at: seq<Tree<V>>, left: set<object>, y: BNode<V>, z: BNode<V>,
                  b: seq<BNode<V>>, bt: seq<Tree<V>>, right: set<object>, region: set<object>)
    requires Stands(a, at, left) && y.Valid() && z.Valid() && Stands(b, bt, right)
    requires left !! right && y.Repr !! left && y.Repr !! right && z.Repr !! left && z.Repr !! right && y.Repr !! z.Repr
    requires region == left + y.Repr + (z.Repr + right)
    ensures Stands(a + [y] + ([z] + b), at + [y.tree] + ([z.tree] + bt), region)
  {
    One(z);
    Join([z], [z.tree], z.Repr, b, bt, right);
    Around(a, at, left, y, [z] + b, [z.tree] + bt, z.Repr + right);
  }

  lemma Spliced<T>(s: seq<T>, i: nat, z: T)
    requires i < |s|
    ensures s[..i + 1] + [z] + s[i + 1..] == s[..i] + [s[i]] + ([z] + s[i + 1..])
  {
  }

  lemma Halved<V>(t: Tree<V>, i: nat)
    requires O.Splits(t, i)
    ensures O.SplitChild(t, i).kids == t.kids[..i] + [O.LeftHalf(t.kids[i])] + ([O.RightHalf(t.kids[i])] + t.kids[i + 1..])
  {
  }

  lemma Parts<T>(s: seq<T>, i: nat)
    requires i < |s|
    ensures s == s[..i] + [s[i]] + s[i + 1..]
  {
  }

  lemma Updated<T>(s: seq<T>, i: nat, c: T)
    requires i < |s|
    ensures s[i := c] == s[..i] + [c] + s[i + 1..]
  {
  }

  lemma Without(x: object, s: set<object>)
    requires x !in s
    ensures {x} + s - {x} == s
  {
  }

  class BNode<V> {
    const leaf: bool
    var keys: Pairs<V>
    var kids: seq<BNode<V>>
    ghost var tree: Tree<V>
    ghost var Repr: set<object>

    ghost predicate Valid()
      reads this, Repr
      decreases Repr, 0
    {
      this in Repr && tree.leaf == leaf && tree.keys == keys && Stands(kids, tree.kids, Repr - {this})
    }

    constructor (leaf: bool)
      ensures Valid() && fresh(Repr) && Repr == {this} && this.leaf == leaf && keys == [] && kids == []
    {
      this.leaf := leaf;
      keys, kids := [], [];
      tree := Node(leaf, [], []);
      Repr := {this};
    }

    /** The children before child i, it, and those after it stand apart. */
    lemma Three(i: nat) returns (left: set<object>, right: set<object>)
      requires Valid() && i < |kids|
      ensures |tree.kids| == |kids| && left <= Repr - {this} && right <= Repr - {this} && left !! right
      ensures Stands(kids[..i], tree.kids[..i], left) && Stands(kids[i + 1..], tree.kids[i + 1..], right)
      ensures kids[i].Valid() && kids[i].tree == tree.kids[i] && kids[i] in Repr && kids[i].Repr <= Repr - {this}
      ensures kids[i].Repr !! left && kids[i].Repr !! right
    {
      var mid, last: set<object>;
      left, mid := Cut(kids, tree.kids, Repr - {this}, i);
      last, right := Cut(kids[i..], tree.kids[i..], mid, 1);
      assert kids[i..][1..] == kids[i + 1..] && tree.kids[i..][1..] == tree.kids[i + 1..];
      assert kids[i..][..1][0] == kids[i];
    }

    lemma Mirrors(i: nat)
      requires Valid() && i < |kids|
      ensures |tree.kids| == |kids| && tree.kids[i].keys == kids[i].keys
    {
      assert kids[i].Valid();
    }

    /** Splits a full node in two. */
    method Halve() returns (z: BNode<V>, median: (string, V))
      requires Valid() && |tree.keys| == 3 && (if leaf then tree.kids == [] else |tree.kids| == 4)
      modifies this
      ensures fresh(z) && z.Valid() && Valid() && Repr <= old(Repr) && Repr !! z.Repr && z.Repr <= old(Repr) + {z}
      ensures median == old(keys)[1] && tree == O.LeftHalf(old(tree)) && z.tree == O.RightHalf(old(tree))
    {
      z := new BNode(leaf);
      median := keys[1];
      z.keys, keys := keys[2..], keys[..1];
      if !leaf {
        ghost var left, right := Cut(kids, tree.kids, Repr - {this}, 2);
        z.kids, kids := kids[2..], kids[..2];
        z.Repr, Repr := {z} + right, {this} + left;
        assert {z} + right - {z} == right && {this} + left - {this} == left;
      }
      z.tree, tree := O.RightHalf(tree), O.LeftHalf(tree);
    }

    method SplitChild(i: nat)
      requires Valid() && O.Splits(tree, i) && i < |kids| && (tree.kids[i].leaf ==> tree.kids[i].kids == [])
      modifies this, kids[i]
      ensures Valid() && fresh(Repr - old(Repr)) && tree == O.SplitChild(old(tree), i)
    {
      var y := kids[i];
      ghost var left, right := Three(i);
      ghost var t := tree;
      var z, median := y.Halve();
      ghost var region := left + y.Repr + (z.Repr + right);
      Beside(kids[..i], t.kids[..i], left, y, z, kids[i + 1..], t.kids[i + 1..], right, region);
      AddKid(i, z, median, region);
    }

    /** A new child stands after child i. */
    method AddKid(i: nat, z: BNode<V>, median: (string, V), ghost region: set<object>)
      requires i < |kids| && i <= |keys| && O.Splits(tree, i) && this !in region && tree.leaf == leaf && tree.keys == keys
      requires median == tree.kids[i].keys[1]
      requires Stands(kids[..i] + [kids[i]] + ([z] + kids[i + 1..]),
                      tree.kids[..i] + [O.LeftHalf(tree.kids[i])] + ([O.RightHalf(tree.kids[i])] + tree.kids[i + 1..]), region)
      modifies this
      ensures Valid() && Repr == {this} + region && tree == O.SplitChild(old(tree), i)
    {
      Spliced(kids, i, z);
      Halved(tree, i);
      Without(this, region);
      kids := kids[..i + 1] + [z] + kids[i + 1..];
      keys := keys[..i] + [median] + keys[i..];
      tree := O.SplitChild(tree, i);
      Repr := {this} + region;
    }

    /** Lets child i put the pair. */
    method Descend(i: nat, k: string, v: V, ghost d: nat)
      requires Valid() && d > 0 && i < |kids| && i < |tree.kids| && Good(tree.kids[i], d - 1) && !O.Full(tree.kids[i])
      modifies Repr
      decreases d, 0
      ensures Valid() && fresh(Repr - old(Repr)) && tree == O.WithKid(old(tree), i, O.InsertNonfull(old(tree).kids[i], d - 1, k, v))
    {
      ghost var left, right := Three(i);
      ghost var before, after := tree.kids[..i], tree.kids[i + 1..];
      kids[i].InsertNonfull(k, v, d - 1);
      Around(kids[..i], before, left, kids[i], kids[i + 1..], after, right);
      Refit(i, left + kids[i].Repr + right);
    }

    /** Takes note of what child i has become. */
    ghost method Refit(i: nat, region: set<object>)
      requires i < |kids| == |tree.kids| && this !in region && tree.leaf == leaf && tree.keys == keys
      requires Stands(kids[..i] + [kids[i]] + kids[i + 1..], tree.kids[..i] + [kids[i].tree] + tree.kids[i + 1..], region)
      modifies this
      ensures Valid() && Repr == {this} + region && kids == old(kids) && tree == O.WithKid(old(tree), i, old(kids[i].tree))
    {
      Without(this, region);
      Parts(kids, i);
      Updated(tree.kids, i, kids[i].tree);
      tree := O.WithKid(tree, i, kids[i].tree);
      Repr := {this} + region;
    }

    method PutLeaf(k: string, v: V)
      requires Valid() && leaf
      modifies this
      ensures Valid() && Repr == old(Repr) && tree == old(tree).(keys := O.LeafPut(old(tree).keys, k, v))
    {
      var i := 0;
      while i < |keys| && keys[i].0 != k
        invariant 0 <= i <= |keys| && O.IndexOf(keys, k) == i + O.IndexOf(keys[i..], k)
      {
        i := i + 1;
      }
      if i < |keys| {
        keys := keys[i := (k, v)];
      } else {
        keys := O.SortPairs(keys + [(k, v)]);
      }
      tree := tree.(keys := keys);
    }

    method ReplaceKey(i: nat, k: string, v: V)
      requires Valid() && i < |keys|
      modifies this
      ensures Valid() && Repr == old(Repr) && kids == old(kids) && tree == O.Replace(old(tree), i, k, v)
    {
      keys := keys[i := (k, v)];
      tree := O.Replace(tree, i, k, v);
    }

    /** How many keys do not come after k. */
    method FindSlot(k: string) returns (i: nat)
      ensures i == O.Slot(keys, k, |keys|)
    {
      i := |keys|;
      while i > 0 && Less(k, keys[i - 1].0)
        invariant 0 <= i <= |keys| && O.Slot(keys, k, |keys|) == O.Slot(keys, k, i)
      {
        i := i - 1;
      }
    }

    method InsertNonfull(k: string, v: V, ghost d: nat)
      requires Valid() && Good(tree, d) && !O.Full(tree)
      modifies Repr
      decreases d, 3
      ensures Valid() && fresh(Repr - old(Repr)) && tree == O.InsertNonfull(old(tree), d, k, v)
    {
      if leaf {
        PutLeaf(k, v);
        return;
      }
      var i := FindSlot(k);
      Mirrors(i);
      if i > 0 && keys[i - 1].0 == k {
        ReplaceKey(i - 1, k, v);
      } else if |kids[i].keys| == 3 {
        assert Good(tree.kids[i], d - 1);
        SplitAndPut(i, k, v, d);
      } else {
        Descend(i, k, v, d);
      }
    }

    method SplitAndPut(i: nat, k: string, v: V, ghost d: nat)
      requires Valid() && d > 0 && Good(tree, d) && !O.Full(tree) && i < |kids| && O.Splits(tree, i) && Good(tree.kids[i], d - 1)
      modifies Repr
      decreases d, 2
      ensures Valid() && fresh(Repr - old(Repr))
      ensures Good(O.SplitChild(old(tree), i), d) && !O.Full(O.SplitChild(old(tree), i).kids[i]) && !O.Full(O.SplitChild(old(tree), i).kids[i + 1])
      ensures tree == O.InsertHalf(O.SplitChild(old(tree), i), i, d, k, v)
    {
      O.SplitGood(tree, i, d);
      SplitChild(i);
      PutHalf(i, k, v, d);
    }

    method PutHalf(s: nat, k: string, v: V, ghost d: nat)
      requires Valid() && d > 0 && Good(tree, d) && s < |keys| && !O.Full(tree.kids[s]) && !O.Full(tree.kids[s + 1])
      modifies Repr
      decreases d, 1
      ensures Valid() && fresh(Repr - old(Repr)) && tree == O.InsertHalf(old(tree), s, d, k, v)
    {
      if k == keys[s].0 {
        ReplaceKey(s, k, v);
      } else if Less(keys[s].0, k) {
        Descend(s + 1, k, v, d);
      } else {
        Descend(s, k, v, d);
      }
    }

    method Get(k: string, ghost d: nat) returns (r: Option<V>)
      requires Valid() && Good(tree, d)
      decreases d
      ensures r == O.Get(tree, d, k)
    {
      var i := 0;
      while i < |keys| && Less(keys[i].0, k)
        invariant 0 <= i <= |keys| && (i > 0 ==> Less(keys[i - 1].0, k)) && O.Stop(keys, k, 0) == O.Stop(keys, k, i)
      {
        i := i + 1;
      }
      if i < |keys| && keys[i].0 == k {
        return Some(keys[i].1);
      }
      if leaf {
        return None;
      }
      r := kids[i].Get(k, d - 1);
    }

    /** The pairs in order, after those there already. */
    method Walk(out: Pairs<V>, ghost d: nat) returns (all: Pairs<V>)
      requires Valid() && Good(tree, d)
      decreases d
      ensures all == out + Flat(tree)
    {
      if leaf {
        return out + keys;
      }
      all := out;
      for i := 0 to |keys|
        invariant all == out + Upto(tree, i)
      {
        all := kids[i].Walk(all, d - 1);
        all := all + [keys[i]];
        O.Onward(tree, i, out);
      }
      all := kids[|kids| - 1].Walk(all, d - 1);
      O.Last(tree, out);
    }

    method Count(ghost d: nat) returns (n: nat)
      requires Valid() && Good(tree, d)
      decreases d
      ensures n == |Flat(tree)|
    {
      n := |keys|;
      for i := 0 to |kids|
        invariant n == |keys| + O.KidCount(tree, i)
      {
        var m := kids[i].Count(d - 1);
        n := n + m;
      }
      O.CountAll(tree, d);
    }
  }

  /** A new root above a full one, with that split. */
  method Grow<V>(root: BNode<V>) returns (r: BNode<V>)
    requires root.Valid() && O.Splits(Node(false, [], [root.tree]), 0) && (root.tree.leaf ==> root.tree.kids == [])
    modifies root
    ensures r.Valid() && fresh(r.Repr - old(root.Repr))
    ensures r.tree == O.SplitChild(Node(false, [], [old(root.tree)]), 0)
  {
    r := new BNode(false);
    One(root);
    r.kids := [root];
    r.tree := Node(false, [], [root.tree]);
    r.Repr := {r} + root.Repr;
    Without(r, root.Repr);
    r.SplitChild(0);
  }

  /** Puts a pair; a full root gets a new one above it. */
  method Put<V>(root: BNode<V>, k: string, v: V, ghost d: nat) returns (r: BNode<V>)
    requires root.Valid() && Good(root.tree, d)
    modifies root.Repr
    ensures r.Valid() && fresh(r.Repr - old(root.Repr)) && r.tree == O.Put(old(root.tree), d, k, v)
  {
    if |root.keys| == 3 {
      O.RootSplit(root.tree, d);
      r := Grow(root);
      r.InsertNonfull(k, v, d + 1);
    } else {
      root.InsertNonfull(k, v, d);
      r := root;
    }
  }
}
