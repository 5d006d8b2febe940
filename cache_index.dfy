/** The cache's index from keys to queue items, and the invariant that ties the
    index, the queue's files and the store's blobs together, with how each step of
    `Get` and `Put` keeps it. */
module CacheIndex {
  import opened Common
  import opened QueueList
  import opened CacheModel

  /** The index: `files` maps the key of each linked file to the item holding it. */
  ghost predicate Indexed(files: map<string, Ptr>, contents: seq<File>, order: seq<nat>)
  {
    && |order| == |contents|
    && files.Keys == Urls(contents)
    && forall k :: 0 <= k < |contents| ==> contents[k].url in files && files[contents[k].url] == Ref(order[k])
  }

  /** Re-binding the key of a file moved to the front to its new item. */
  lemma IndexedMove(files: map<string, Ptr>, contents: seq<File>, order: seq<nat>, k: nat, n: nat)
    requires Indexed(files, contents, order) && DistinctUrls(contents) && k < |contents|
    ensures Indexed(files[contents[k].url := Ref(n)], [contents[k]] + Without(contents, k), [n] + Without(order, k))
  {
    var c := [contents[k]] + Without(contents, k);
    var o := [n] + Without(order, k);
    NamesMove(contents, k);
    MovedAt(contents, k);
    forall j | 0 <= j < |c| ensures o[j] == if j == 0 then n else order[MovedFrom(k, j)] { }
    forall j | 1 <= j < |c| ensures c[j].url != contents[k].url {
      var i := MovedFrom(k, j);
      if i < k {
        assert contents[i].url != contents[k].url;
      } else {
        assert contents[k].url != contents[i].url;
      }
    }
  }

  /** Dropping the key of the back file along with the file. */
  lemma IndexedEvict(files: map<string, Ptr>, contents: seq<File>, order: seq<nat>)
    requires Indexed(files, contents, order) && DistinctUrls(contents) && contents != []
    ensures var last := |contents| - 1;
      Indexed(files - {contents[last].url}, Without(contents, last), Without(order, last))
  {
    var last := |contents| - 1;
    var c := Without(contents, last);
    assert c == contents[..last];
    UrlsPrefix(contents, last);
    UrlsDef(contents);
    UrlsDef(c);
    forall u | u in Urls(contents) && u != contents[last].url ensures u in Urls(c) {
      var i :| 0 <= i < |contents| && contents[i].url == u;
      assert c[i] == contents[i];
    }
    forall u | u in Urls(c) ensures u != contents[last].url {
      var i :| 0 <= i < |c| && c[i].url == u;
      assert c[i] == contents[i];
    }
  }

  /** Binding the key of a new front file. */
  lemma IndexedPush(files: map<string, Ptr>, contents: seq<File>, order: seq<nat>, f: File, n: nat)
    requires Indexed(files, contents, order) && f.url !in Urls(contents)
    ensures Indexed(files[f.url := Ref(n)], [f] + contents, [n] + order)
  {
    NamesCons(f, contents);
    forall j | 1 <= j <= |contents| ensures ([f] + contents)[j] == contents[j - 1] && contents[j - 1].url != f.url { }
  }

  /** Evicting the back file of a well-formed cache leaves a well-formed cache. */
  lemma EvictOneWellFormed(s: CacheModel.State, capacity: int, nameOf: string -> string)
    requires WellFormed(s, capacity, nameOf) && Injective(nameOf) && s.files != []
    ensures var last := |s.files| - 1;
      WellFormed(CacheModel.State(Without(s.files, last), s.blobs - {s.files[last].name}), capacity, nameOf)
  {
    var last := |s.files| - 1;
    assert Without(s.files, last) == s.files[..last];
    assert s.files[last..] == [s.files[last]];
    assert Names(s.files[last..]) == {s.files[last].name} by {
      NamesDef(s.files[last..]);
    }
    NamesPrefix(s.files, last, nameOf);
    SumPrefixAtMost(s.files, last);
  }

  /** The invariant of the cache beyond the queue's own: a well-formed abstract
      state, an injective naming and an index that points at the linked items. */
  ghost predicate Consistent(files: map<string, Ptr>, contents: seq<File>, order: seq<nat>,
                             blobs: map<string, Bytes>, capacity: int, nameOf: string -> string)
  {
    && Injective(nameOf)
    && WellFormed(State(contents, blobs), capacity, nameOf)
    && Indexed(files, contents, order)
  }

  /** A hit keeps the invariant: the file moves to the front and its key is re-bound. */
  lemma ConsistentMove(files: map<string, Ptr>, contents: seq<File>, order: seq<nat>, blobs: map<string, Bytes>,
                       capacity: int, nameOf: string -> string, k: nat, n: nat)
    requires Consistent(files, contents, order, blobs, capacity, nameOf) && k < |contents|
    ensures Consistent(files[contents[k].url := Ref(n)], [contents[k]] + Without(contents, k),
                       [n] + Without(order, k), blobs, capacity, nameOf)
  {
    MoveWellFormed(State(contents, blobs), k, capacity, nameOf);
    IndexedMove(files, contents, order, k, n);
  }

  /** One round of the eviction loop keeps the invariant: the back file, its blob and its key go. */
  lemma ConsistentEvict(files: map<string, Ptr>, contents: seq<File>, order: seq<nat>, blobs: map<string, Bytes>,
                        capacity: int, nameOf: string -> string)
    requires Consistent(files, contents, order, blobs, capacity, nameOf) && contents != []
    ensures var last := |contents| - 1;
      Consistent(files - {contents[last].url}, Without(contents, last), Without(order, last),
                 blobs - {contents[last].name}, capacity, nameOf)
  {
    EvictOneWellFormed(State(contents, blobs), capacity, nameOf);
    IndexedEvict(files, contents, order);
  }

  /** Pushing the new file of a successful `Put` keeps the invariant. */
  lemma ConsistentPush(files: map<string, Ptr>, contents: seq<File>, order: seq<nat>, blobs: map<string, Bytes>,
                       capacity: int, nameOf: string -> string, f: File, data: Bytes, n: nat)
    requires Consistent(files, contents, order, blobs, capacity, nameOf)
    requires f.url !in files && f.size > 0 && f.name == nameOf(f.url) && Sum(contents) + f.size <= capacity
    ensures Consistent(files[f.url := Ref(n)], [f] + contents, [n] + order, blobs[f.name := data], capacity, nameOf)
  {
    PushWellFormed(State(contents, blobs), capacity, nameOf, f, data);
    IndexedPush(files, contents, order, f, n);
  }
}
