/** The values behind the recency queue of the cache: file records, list items
    and pointers, and the shape of a doubly-linked list laid out in an arena.

    Go allocates every item on the heap; here the items live in an arena, a sequence
    that only grows, and a pointer to an item is its index in the arena. An item that
    has been unlinked stays in the arena, so a stale pointer keeps pointing at it, as
    in the source. */
module QueueList {

  /** A cached file: the key it is stored under, its length in bytes and the name of its blob. */
  datatype File = File(url: string, size: nat, name: string)

  /** A pointer to an item: nil, or the arena index of an allocated item. */
  datatype Ptr = Nil | Ref(index: nat)

  /** A list item: a file and the links to its neighbours. */
  datatype Item = Item(file: File, next: Ptr, prev: Ptr)

  /** The total size of a sequence of files. */
  function Sum(fs: seq<File>): nat
  {
    SumTo(fs, |fs|)
  }

  /** The total size of the first `n` files. */
  function SumTo(fs: seq<File>, n: nat): nat
    requires n <= |fs|
  {
    if n == 0 then 0 else SumTo(fs, n - 1) + fs[n - 1].size
  }

  /** `s` without its element at position `k`. */
  function Without<T>(s: seq<T>, k: nat): (r: seq<T>)
    requires k < |s|
    ensures |r| == |s| - 1
    ensures forall j :: 0 <= j < |r| ==> r[j] == if j < k then s[j] else s[j + 1]
  {
    s[..k] + s[k + 1..]
  }

  /** The total of the first `n` files depends on those files only. */
  lemma {:induction false} SumToSame(a: seq<File>, b: seq<File>, n: nat)
    requires n <= |a| && n <= |b| && a[..n] == b[..n]
    ensures SumTo(a, n) == SumTo(b, n)
  {
    if n > 0 {
      assert a[n - 1] == a[..n][n - 1] == b[n - 1];
      assert a[..n - 1] == a[..n][..n - 1] == b[..n - 1];
      SumToSame(a, b, n - 1);
    }
  }

  /** The total of a prefix is the running total up to its length. */
  lemma SumPrefixTo(fs: seq<File>, n: nat)
    requires n <= |fs|
    ensures Sum(fs[..n]) == SumTo(fs, n)
  {
    assert fs[..n][..n] == fs[..n];
    SumToSame(fs[..n], fs, n);
  }

  /** A file put in front adds its size to the total. */
  lemma {:induction false} SumToCons(f: File, fs: seq<File>, n: nat)
    requires n <= |fs|
    ensures SumTo([f] + fs, n + 1) == f.size + SumTo(fs, n)
  {
    if n > 0 {
      SumToCons(f, fs, n - 1);
    }
  }

  lemma SumCons(f: File, fs: seq<File>)
    ensures Sum([f] + fs) == f.size + Sum(fs)
  {
    SumToCons(f, fs, |fs|);
  }

  /** Removing one file takes exactly its size off the total. */
  lemma {:induction false} SumToWithout(fs: seq<File>, k: nat, n: nat)
    requires k < |fs| && n < |fs|
    ensures SumTo(Without(fs, k), n) == if n <= k then SumTo(fs, n) else SumTo(fs, n + 1) - fs[k].size
  {
    if n > 0 {
      SumToWithout(fs, k, n - 1);
    }
  }

  lemma SumWithout(fs: seq<File>, k: nat)
    requires k < |fs|
    ensures Sum(Without(fs, k)) == Sum(fs) - fs[k].size
  {
    SumToWithout(fs, k, |fs| - 1);
  }

  /** Moving one file to the front leaves the total unchanged. */
  lemma SumMoveToFront(fs: seq<File>, k: nat)
    requires k < |fs|
    ensures Sum([fs[k]] + Without(fs, k)) == Sum(fs)
  {
    SumWithout(fs, k);
    SumCons(fs[k], Without(fs, k));
  }

  /** With every size positive, the total is zero exactly when there is no file. */
  lemma SumZero(fs: seq<File>)
    requires forall k :: 0 <= k < |fs| ==> fs[k].size > 0
    ensures Sum(fs) == 0 <==> fs == []
  {
    if fs != [] {
      assert fs[|fs| - 1].size > 0;
    }
  }

  /** The total of the files up to a position, plus the file there, is the total up to the next position. */
  lemma SumPrefix(fs: seq<File>, n: nat)
    requires n < |fs|
    ensures Sum(fs[..n + 1]) == Sum(fs[..n]) + fs[n].size
  {
    SumPrefixTo(fs, n);
    SumPrefixTo(fs, n + 1);
  }

  /** The items at `order` form a doubly-linked chain, in that order. */
  ghost predicate Chain(items: seq<Item>, order: seq<nat>)
  {
    && (forall k :: 0 <= k < |order| ==> order[k] < |items|)
    && (|order| > 0 ==> items[order[0]].prev == Nil && items[order[|order| - 1]].next == Nil)
    && (forall k :: 0 < k < |order| ==> items[order[k]].prev == Ref(order[k - 1]))
    && (forall k :: 0 <= k < |order| - 1 ==> items[order[k]].next == Ref(order[k + 1]))
  }

  /** No item is linked twice: walking back along the `prev` links from two
      positions of a chain reaches the front at different times. */
  lemma {:induction false} ChainDistinct(items: seq<Item>, order: seq<nat>, j: nat, k: nat)
    requires Chain(items, order) && j < k < |order|
    ensures order[j] != order[k]
  {
    assert items[order[k]].prev == Ref(order[k - 1]);
    if j > 0 {
      ChainDistinct(items, order, j - 1, k - 1);
      assert items[order[j]].prev == Ref(order[j - 1]);
    }
  }

  lemma ChainInjective(items: seq<Item>, order: seq<nat>, i: nat, j: nat)
    requires Chain(items, order) && i < |order| && j < |order|
    ensures order[i] == order[j] <==> i == j
  {
    if i < j {
      ChainDistinct(items, order, i, j);
    } else if j < i {
      ChainDistinct(items, order, j, i);
    }
  }

  /** The items at `order` hold `contents`, in that order. */
  ghost predicate Holding(items: seq<Item>, order: seq<nat>, contents: seq<File>)
    requires forall k :: 0 <= k < |order| ==> order[k] < |items|
  {
    |order| == |contents| && forall k :: 0 <= k < |order| ==> items[order[k]].file == contents[k]
  }

  /** The arena after pushing `f` in front of the chain `order` of a nonempty list. */
  ghost function Pushed(items: seq<Item>, order: seq<nat>, f: File): seq<Item>
    requires Chain(items, order) && order != []
  {
    var n := |items|;
    var a := items + [Item(f, Ref(order[0]), Nil)];
    a[order[0] := a[order[0]].(prev := Ref(n))]
  }

  lemma PushedChain(items: seq<Item>, order: seq<nat>, contents: seq<File>, f: File)
    requires Chain(items, order) && Holding(items, order, contents) && order != []
    ensures Chain(Pushed(items, order, f), [|items|] + order)
    ensures Holding(Pushed(items, order, f), [|items|] + order, [f] + contents)
  {
    var n := |items|;
    var a := Pushed(items, order, f);
    var o := [n] + order;
    assert a[n] == Item(f, Ref(order[0]), Nil);
    assert a[order[0]] == items[order[0]].(prev := Ref(n));
    forall k | 1 <= k < |o|
      ensures o[k] == order[k - 1] && o[k] < |a|
      ensures a[o[k]].file == items[order[k - 1]].file
      ensures a[o[k]].next == items[order[k - 1]].next
      ensures k > 1 ==> a[o[k]].prev == items[order[k - 1]].prev
    {
      if k > 1 {
        ChainDistinct(items, order, 0, k - 1);
      }
    }
    forall k | 0 < k < |o| ensures a[o[k]].prev == Ref(o[k - 1]) {
      if k > 1 {
        assert o[k - 1] == order[k - 2];
      }
    }
    forall k | 0 <= k < |o| - 1 ensures a[o[k]].next == Ref(o[k + 1]) {
      assert o[k + 1] == order[k];
    }
  }

  /** The arena after unlinking position `k` of the chain `order`, which links at least two items. */
  ghost function Unlinked(items: seq<Item>, order: seq<nat>, k: nat): seq<Item>
    requires Chain(items, order) && k < |order| && |order| > 1
  {
    if k == 0 then
      items[order[1] := items[order[1]].(prev := Nil)]
    else if k == |order| - 1 then
      items[order[k - 1] := items[order[k - 1]].(next := Nil)]
    else
      var a := items[order[k + 1] := items[order[k + 1]].(prev := Ref(order[k - 1]))];
      a[order[k - 1] := a[order[k - 1]].(next := Ref(order[k + 1]))]
  }

  lemma UnlinkedChain(items: seq<Item>, order: seq<nat>, contents: seq<File>, k: nat)
    requires Chain(items, order) && Holding(items, order, contents) && k < |order| && |order| > 1
    ensures Chain(Unlinked(items, order, k), Without(order, k))
    ensures Holding(Unlinked(items, order, k), Without(order, k), Without(contents, k))
  {
    var a := Unlinked(items, order, k);
    var o := Without(order, k);
    forall j | 0 <= j < |o|
      ensures o[j] < |a|
      ensures a[o[j]] == items[o[j]].(prev := a[o[j]].prev, next := a[o[j]].next)
      ensures a[o[j]].prev == if j == 0 then Nil else Ref(o[j - 1])
      ensures a[o[j]].next == if j == |o| - 1 then Nil else Ref(o[j + 1])
    {
      UnlinkedAt(items, order, k, j);
    }
    UnlinkedAt(items, order, k, 0);
    UnlinkedAt(items, order, k, |o| - 1);
    forall j | 0 <= j < |o| ensures a[o[j]].file == Without(contents, k)[j] {
      assert o[j] == order[if j < k then j else j + 1];
    }
  }

  /** One linked item of the arena after unlinking position `k`. */
  lemma UnlinkedAt(items: seq<Item>, order: seq<nat>, k: nat, j: nat)
    requires Chain(items, order) && k < |order| && |order| > 1 && j < |order| - 1
    ensures var a, o := Unlinked(items, order, k), Without(order, k);
      && |a| == |items| && o[j] < |a|
      && a[o[j]] == items[o[j]].(prev := a[o[j]].prev, next := a[o[j]].next)
      && a[o[j]].prev == (if j == 0 then Nil else Ref(o[j - 1]))
      && a[o[j]].next == (if j == |o| - 1 then Nil else Ref(o[j + 1]))
  {
    var o := Without(order, k);
    var i := if j < k then j else j + 1;
    assert o[j] == order[i];
    if j > 0 {
      assert o[j - 1] == order[if j - 1 < k then j - 1 else j];
    }
    if j < |o| - 1 {
      assert o[j + 1] == order[if j + 1 < k then j + 1 else j + 2];
    }
    if k == 0 {
      ChainInjective(items, order, i, 1);
    } else if k == |order| - 1 {
      ChainInjective(items, order, i, k - 1);
    } else {
      ChainInjective(items, order, i, k + 1);
      ChainInjective(items, order, i, k - 1);
    }
  }

  /** The chain at `order` holds `contents`, `front` points at its first item
      and `size` is the total size of its files. */
  ghost predicate LinkedList(items: seq<Item>, order: seq<nat>, contents: seq<File>, front: Ptr, size: int)
  {
    && Chain(items, order)
    && Holding(items, order, contents)
    && front == (if |order| == 0 then Nil else Ref(order[0]))
    && size == Sum(contents)
  }

  /** A single new item makes a list of one file. */
  lemma SoleLinked(items: seq<Item>, f: File)
    ensures LinkedList(items + [Item(f, Nil, Nil)], [|items|], [f], Ref(|items|), f.size)
  {
    assert Sum([f]) == SumTo([f], 0) + f.size;
  }

  /** Pushing in front of a nonempty list. */
  lemma PushedLinked(items: seq<Item>, order: seq<nat>, contents: seq<File>, front: Ptr, size: int, f: File)
    requires LinkedList(items, order, contents, front, size) && order != []
    ensures LinkedList(Pushed(items, order, f), [|items|] + order, [f] + contents, Ref(|items|), size + f.size)
  {
    PushedChain(items, order, contents, f);
    SumCons(f, contents);
  }

  /** Unlinking one item of a list of at least two. */
  lemma UnlinkedLinked(items: seq<Item>, order: seq<nat>, contents: seq<File>, front: Ptr, size: int, k: nat)
    requires LinkedList(items, order, contents, front, size) && k < |order| && |order| > 1
    ensures LinkedList(Unlinked(items, order, k), Without(order, k), Without(contents, k),
                       Ref(Without(order, k)[0]), size - contents[k].size)
  {
    UnlinkedChain(items, order, contents, k);
    SumWithout(contents, k);
  }

  lemma WithoutCons<T>(s: seq<T>, x: T, k: nat)
    requires k < |s|
    ensures Without([x] + s, k + 1) == [x] + Without(s, k)
  {
  }
}
