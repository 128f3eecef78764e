/** Trees laid out in preorder in one array with parent links: the layout shared by the
    schema items of src/utilities/app_json_schema.c and the tokens that
    src/utilities/app_json_decode.c walks. */
module Preorder {
  /** A row of trees: the first one's label, its children, and the trees after it. */
  datatype Forest<T> = Empty | Cons(value: T, kids: Forest<T>, rest: Forest<T>)

  /** One array entry; `end` is one past its last descendant. */
  datatype Entry<T> = Entry(value: T, parent: int, end: nat)

  function Size<T>(f: Forest<T>): nat {
    match f
    case Empty => 0
    case Cons(_, kids, rest) => 1 + Size(kids) + Size(rest)
  }

  /** The labels of the row's trees, in order. */
  function Labels<T>(f: Forest<T>): seq<T> {
    match f
    case Empty => []
    case Cons(value, _, rest) => [value] + Labels(rest)
  }

  /** Where the row's trees start when the row is laid out from index `at`. */
  function Starts<T>(f: Forest<T>, at: nat): (r: seq<nat>)
    ensures |r| == |Labels(f)|
  {
    match f
    case Empty => []
    case Cons(_, kids, rest) => [at] + Starts(rest, at + 1 + Size(kids))
  }

  /** The layout from index `at`, under `parent`. */
  function Flat<T>(f: Forest<T>, at: nat, parent: int): (r: seq<Entry<T>>)
    ensures |r| == Size(f)
  {
    match f
    case Empty => []
    case Cons(value, kids, rest) =>
      var next := at + 1 + Size(kids);
      [Entry(value, parent, next)] + Flat(kids, at + 1, at) + Flat(rest, next, parent)
  }

  /** The entry at index i of a row laid out from `at`. */
  function EntryAt<T>(f: Forest<T>, at: nat, parent: int, i: nat): Entry<T>
    requires at <= i < at + Size(f)
  {
    var next := at + 1 + Size(f.kids);
    if i == at then Entry(f.value, parent, next)
    else if i < next then EntryAt(f.kids, at + 1, at, i)
    else EntryAt(f.rest, next, parent, i)
  }

  /** The children of the node at index i. */
  function KidsAt<T>(f: Forest<T>, at: nat, i: nat): Forest<T>
    requires at <= i < at + Size(f)
  {
    var next := at + 1 + Size(f.kids);
    if i == at then f.kids
    else if i < next then KidsAt(f.kids, at + 1, i)
    else KidsAt(f.rest, next, i)
  }

  lemma {:induction false} FlatAt<T>(f: Forest<T>, at: nat, parent: int, i: nat)
    requires at <= i < at + Size(f)
    ensures Flat(f, at, parent)[i - at] == EntryAt(f, at, parent, i)
  {
    var next := at + 1 + Size(f.kids);
    JoinedAt(Entry(f.value, parent, next), Flat(f.kids, at + 1, at), Flat(f.rest, next, parent), i - at);
    if at < i < next {
      FlatAt(f.kids, at + 1, at, i);
    } else if i >= next {
      FlatAt(f.rest, next, parent, i);
    }
  }

  /** A row is its first tree, then the others. */
  lemma FlatFirst<T>(f: Forest<T>, at: nat, parent: int)
    requires f.Cons?
    ensures Flat(f, at, parent) == Flat(f.(rest := Empty), at, parent) + Flat(f.rest, at + 1 + Size(f.kids), parent)
    ensures Size(f.(rest := Empty)) == 1 + Size(f.kids)
  {
  }

  lemma JoinedAt<T>(head: T, kids: seq<T>, rest: seq<T>, k: nat)
    requires k < 1 + |kids| + |rest|
    ensures ([head] + kids + rest)[k] ==
            if k == 0 then head else if k < 1 + |kids| then kids[k - 1] else rest[k - 1 - |kids|]
  {
  }

  /** A node's block ends behind its children's trees. */
  lemma {:induction false} BlockEnd<T>(f: Forest<T>, at: nat, parent: int, i: nat)
    requires at <= i < at + Size(f)
    ensures EntryAt(f, at, parent, i).end == i + 1 + Size(KidsAt(f, at, i)) <= at + Size(f)
  {
    var next := at + 1 + Size(f.kids);
    assert Size(f) == 1 + Size(f.kids) + Size(f.rest);
    if at < i < next {
      BlockEnd(f.kids, at + 1, at, i);
    } else if i >= next {
      BlockEnd(f.rest, next, parent, i);
    }
  }

  /** Below each node its children are laid out from the next index, as far as its end. */
  lemma {:induction false} BlockIs<T>(f: Forest<T>, at: nat, parent: int, i: nat, j: nat)
    requires at <= i < at + Size(f)
    ensures EntryAt(f, at, parent, i).end == i + 1 + Size(KidsAt(f, at, i)) <= at + Size(f)
    ensures i < j < EntryAt(f, at, parent, i).end ==>
              EntryAt(f, at, parent, j) == EntryAt(KidsAt(f, at, i), i + 1, i, j)
  {
    BlockEnd(f, at, parent, i);
    if i < j < EntryAt(f, at, parent, i).end {
      var next := at + 1 + Size(f.kids);
      assert Size(f) == 1 + Size(f.kids) + Size(f.rest);
      if at < i < next {
        BlockIs(f.kids, at + 1, at, i, j);
      } else if i >= next {
        BlockIs(f.rest, next, parent, i, j);
      }
    }
  }

  /** A parent link is the row's own parent, or leads to an earlier entry whose block holds
      this one. */
  lemma {:induction false} ParentHolds<T>(f: Forest<T>, at: nat, parent: int, i: nat)
    requires at <= i < at + Size(f)
    ensures var q := EntryAt(f, at, parent, i).parent;
            if i in Starts(f, at) then q == parent
            else at <= q < i && i < EntryAt(f, at, parent, q).end
  {
    var next := at + 1 + Size(f.kids);
    StartsWithin(f.rest, next);
    StartsWithin(f.kids, at + 1);
    assert Starts(f, at) == [at] + Starts(f.rest, next);
    if at < i < next {
      ParentHolds(f.kids, at + 1, at, i);
    } else if i >= next {
      ParentHolds(f.rest, next, parent, i);
    }
  }

  lemma {:induction false} StartsWithin<T>(f: Forest<T>, at: nat)
    ensures forall k :: 0 <= k < |Starts(f, at)| ==> at <= Starts(f, at)[k] < at + Size(f)
    ensures forall k, l :: 0 <= k < l < |Starts(f, at)| ==> Starts(f, at)[k] < Starts(f, at)[l]
  {
    if f.Cons? {
      StartsWithin(f.rest, at + 1 + Size(f.kids));
    }
  }

  /** The k-th start carries the k-th label. */
  lemma {:induction false} StartLabel<T>(f: Forest<T>, at: nat, parent: int, k: nat)
    requires k < |Labels(f)|
    ensures at <= Starts(f, at)[k] < at + Size(f)
    ensures EntryAt(f, at, parent, Starts(f, at)[k]).value == Labels(f)[k]
  {
    var next := at + 1 + Size(f.kids);
    StartsWithin(f, at);
    var i := Starts(f, at)[k];
    assert i == if k == 0 then at else Starts(f.rest, next)[k - 1];
    assert Labels(f)[k] == if k == 0 then f.value else Labels(f.rest)[k - 1];
    if k > 0 {
      StartLabel(f.rest, next, parent, k - 1);
    }
  }

  /** The links of a whole layout: every parent link points at exactly the entries that are
      the starts of the children. */
  lemma ChildrenAre<T>(f: Forest<T>, root: int, p: nat, j: nat)
    requires p < Size(f) && j < Size(f) && (root < 0 || root >= Size(f))
    ensures EntryAt(f, 0, root, j).parent == p <==> j in Starts(KidsAt(f, 0, p), p + 1)
  {
    var kids := KidsAt(f, 0, p);
    BlockIs(f, 0, root, p, j);
    StartsWithin(kids, p + 1);
    if p < j < p + 1 + Size(kids) {
      ParentHolds(kids, p + 1, p, j);
    } else {
      ParentHolds(f, 0, root, j);
    }
  }

  /** Whether a chain of parent links leads from i up to p. */
  predicate Descends<T>(f: Forest<T>, root: int, i: nat, p: nat)
    requires i < Size(f)
    decreases i
  {
    var q := EntryAt(f, 0, root, i).parent;
    i == p || (0 <= q < i && Descends(f, root, q, p))
  }

  /** The descendants of a node are exactly its block. */
  lemma {:induction false} DescendantsAre<T>(f: Forest<T>, root: int, i: nat, p: nat)
    requires p < Size(f) && i < Size(f) && (root < 0 || root >= Size(f))
    ensures Descends(f, root, i, p) <==> p <= i < EntryAt(f, 0, root, p).end
    decreases i
  {
    var kids := KidsAt(f, 0, p);
    var q := EntryAt(f, 0, root, i).parent;
    BlockIs(f, 0, root, p, i);
    ParentHolds(f, 0, root, i);
    if p < i < p + 1 + Size(kids) {
      ParentHolds(kids, p + 1, p, i);
      StartsWithin(kids, p + 1);
      DescendantsAre(f, root, q, p);
    } else if i != p && 0 <= q < i {
      DescendantsAre(f, root, q, p);
      if p <= q < p + 1 + Size(kids) {
        BlocksNest(f, root, p, q);
      }
    }
  }

  lemma BlocksNest<T>(f: Forest<T>, root: int, p: nat, q: nat)
    requires p < Size(f) && p <= q < EntryAt(f, 0, root, p).end
    ensures q < Size(f) && EntryAt(f, 0, root, q).end <= EntryAt(f, 0, root, p).end
  {
    BlockIs(f, 0, root, p, q);
    if q > p {
      BlockIs(KidsAt(f, 0, p), p + 1, p, q, q);
    }
  }

  /** When a scan that starts behind the k-th start stops at the first member of the starts,
      or runs out of them, it has found the next start, or there is none. */
  lemma NextStart(starts: seq<nat>, k: int, from: nat, r: nat)
    requires forall a, b :: 0 <= a < b < |starts| ==> starts[a] < starts[b]
    requires -1 <= k < |starts|
    requires if k < 0 then forall a :: 0 <= a < |starts| ==> from <= starts[a] else from == starts[k] + 1
    requires forall j :: from <= j < r ==> j !in starts
    ensures forall a :: k < a < |starts| ==> r <= starts[a]
    ensures r >= from && r in starts ==> k + 1 < |starts| && starts[k + 1] == r
  {
    forall a | k < a < |starts| ensures r <= starts[a] {
      assert starts[a] in starts;
    }
  }
}
