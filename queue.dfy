/** The recency queue of the cache: a doubly-linked list of file records whose front
    is the most recently used entry and whose back is the least recently used one,
    with a running total of the sizes of the files it links. */
module CacheQueue {
  import opened QueueList

  class Queue {
    /** The sum of the sizes of the linked files, in bytes. */
    var size: int
    var front: Ptr
    var back: Ptr
    /** Every item ever allocated; an index into it is a pointer. */
    var items: seq<Item>

    /** The linked files, front (most recently used) to back. */
    ghost var contents: seq<File>
    /** The arena indices of the linked items, front to back. */
    ghost var order: seq<nat>

    /** The list structure from `front` along the `next` and `prev` links, and the
        running total; everything except the `back` field. */
    ghost predicate Linked()
      reads this`items, this`order, this`contents, this`front, this`size
    {
      LinkedList(items, order, contents, front, size)
    }

    /** The object invariant: the list is linked and `back` is its last item. */
    ghost predicate Valid()
      reads this
    {
      Linked() && back == if |order| == 0 then Nil else Ref(order[|order| - 1])
    }

    /** `p` points at the item linked at position `k`. */
    ghost predicate At(p: Ptr, k: nat)
      reads this`order
    {
      k < |order| && p == Ref(order[k])
    }

    /** `newQueue`: the zero queue, without items. */
    constructor ()
      ensures Valid() && contents == [] && items == [] && size == 0
    {
      size, front, back, items := 0, Nil, Nil, [];
      contents, order := [], [];
    }

    /** `getFront`: nil on an empty queue, else the item of the most recently used file. */
    method GetFront() returns (p: Ptr)
      requires Linked()
      ensures p == Nil <==> contents == []
      ensures p != Nil ==> p == Ref(order[0]) && p.index < |items| && items[p.index].file == contents[0]
    {
      p := front;
    }

    /** `getBack`: nil on an empty queue, else the item of the least recently used file. */
    method GetBack() returns (p: Ptr)
      requires Valid()
      ensures p == Nil <==> contents == []
      ensures p != Nil ==> p == Ref(order[|order| - 1]) && p.index < |items|
                           && items[p.index].file == contents[|contents| - 1]
    {
      p := back;
    }

    /** `pushFront`: link a new item holding `f` in front. The emptiness test is
        `size == 0`, so on a nonempty queue whose files all have size zero the new
        item becomes the only linked one. */
    method PushFront(f: File) returns (p: Ptr)
      requires Linked()
      modifies this
      ensures Linked()
      ensures p == Ref(old(|items|)) && front == p && |items| == old(|items|) + 1
      ensures size == old(size) + f.size
      ensures old(size) == 0 ==> contents == [f] && order == [p.index] && back == p
      ensures old(size) != 0 ==> && contents == [f] + old(contents)
                                 && order == [p.index] + old(order)
                                 && back == old(back)
      ensures old(Valid()) ==> Valid()
    {
      p := Ref(|items|);
      var item := Item(f, Nil, Nil);
      if size == 0 {
        SoleLinked(items, f);
        back := p;
        items := items + [item];
        order, contents := [p.index], [f];
      } else {
        assert order != [];
        PushedLinked(items, order, contents, front, size, f);
        ghost var pushed := Pushed(items, order, f);
        item := item.(next := front);
        items := items + [item];
        items := items[front.index := items[front.index].(prev := p)];
        assert items == pushed;
        order, contents := [p.index] + order, [f] + contents;
      }
      front := p;
      size := size + f.size;
    }

    /** `remove`: unlink the item `p` points at. Unlinking the only item sets the
        local pointer to nil and then reads the size through it, a nil dereference;
        that outcome is `nilDeref`, with `front` and `back` already cleared. */
    method Remove(p: Ptr, ghost k: nat) returns (nilDeref: bool)
      requires Linked() && At(p, k)
      requires back == Ref(order[|order| - 1]) || p == Ref(order[|order| - 1])
      modifies this
      ensures nilDeref <==> old(|order|) == 1
      ensures nilDeref ==> front == Nil && back == Nil && size == old(size) && items == old(items)
      ensures !nilDeref ==>
        && Valid()
        && contents == Without(old(contents), k)
        && order == Without(old(order), k)
        && size == old(size) - old(contents[k].size)
        && |items| == old(|items|)
    {
      var item := items[p.index];
      var prev, next := item.prev, item.next;
      assert prev == if k == 0 then Nil else Ref(order[k - 1]);
      assert next == if k == |order| - 1 then Nil else Ref(order[k + 1]);
      if |order| > 1 {
        UnlinkedLinked(items, order, contents, front, size, k);
      }
      ghost var unlinked := if |order| > 1 then Unlinked(items, order, k) else items;
      if prev == Nil && next == Nil {
        front := Nil;
        back := Nil;
        return true;
      } else if prev == Nil {
        items := items[next.index := items[next.index].(prev := Nil)];
        front := next;
      } else if next == Nil {
        items := items[prev.index := items[prev.index].(next := Nil)];
        back := prev;
      } else {
        items := items[next.index := items[next.index].(prev := prev)];
        items := items[prev.index := items[prev.index].(next := next)];
      }
      assert items == unlinked;
      ghost var rest := Without(order, k);
      assert front == Ref(rest[0]) && back == Ref(rest[|rest| - 1]);
      order, contents := rest, Without(contents, k);
      size := size - item.file.size;
      return false;
    }

    /** `moveToFront`: push a new item holding the same file in front, then unlink
        the old one; `p` is stale afterwards. */
    method MoveToFront(p: Ptr, ghost k: nat)
      requires Valid() && At(p, k) && size > 0
      modifies this
      ensures Valid()
      ensures contents == [old(contents[k])] + Without(old(contents), k)
      ensures order == [old(|items|)] + Without(old(order), k)
      ensures size == old(size) && front == Ref(old(|items|))
    {
      ghost var was, wasOrder := contents, order;
      assert k < |order| - 1 ==> items[order[k]].next == Ref(order[k + 1]);
      if items[p.index].next == Nil {
        assert k == |order| - 1;
        back := items[p.index].prev;
      }
      ghost var last := Ref(wasOrder[|wasOrder| - 1]);
      assert back == last || p == last;
      var f := items[p.index].file;
      assert f == was[k];
      var q := PushFront(f);
      assert order[|order| - 1] == wasOrder[|wasOrder| - 1];
      assert contents == [f] + was && order == [q.index] + wasOrder;
      ghost var pushed, pushedOrder, pushedSize := contents, order, size;
      assert pushed[k + 1] == f && pushedOrder[k + 1] == p.index;
      var nilDeref := Remove(p, k + 1);
      assert !nilDeref;
      assert contents == Without(pushed, k + 1) && order == Without(pushedOrder, k + 1);
      assert size == pushedSize - f.size;
      assert order[0] == q.index;
      WithoutCons(was, f, k);
      WithoutCons(wasOrder, q.index, k);
    }
  }
}
