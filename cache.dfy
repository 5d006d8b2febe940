/** The bounded LRU cache: an index from keys to queue items, the recency queue and
    a blob store. `Get` promotes the file it finds; `Put` evicts from the back of the
    queue until the new file fits, writes its blob and pushes it in front. */
module Cache {
  import opened Common
  import opened QueueList
  import opened CacheQueue
  import opened Storage
  import opened CacheModel
  import opened CacheIndex

  class Cache {
    /** The capacity in bytes (`size` in the source). */
    const capacity: int
    /** The blob name of a key: the hex SHA-256 digest of the key in the source. */
    const nameOf: string -> string
    const queue: Queue
    const storage: Store
    /** The index from keys to the items of the queue. */
    var files: map<string, Ptr>

    /** The abstract state: the queue's files and the store's blobs. */
    ghost function View(): CacheModel.State
      reads this, queue, storage
    {
      CacheModel.State(queue.contents, storage.blobs)
    }

    ghost predicate Valid()
      reads this, queue, storage
    {
      && queue.Valid()
      && Consistent(files, queue.contents, queue.order, storage.blobs, capacity, nameOf)
    }

    /** `New`: an empty cache of the given capacity over an empty store. */
    constructor (capacity: int, storage: Store, nameOf: string -> string)
      requires storage.blobs == map[] && Injective(nameOf)
      ensures Valid() && fresh(queue)
      ensures this.capacity == capacity && this.storage == storage && this.nameOf == nameOf
      ensures View() == CacheModel.State([], map[]) && files == map[]
    {
      this.capacity := capacity;
      this.nameOf := nameOf;
      this.storage := storage;
      queue := new Queue();
      files := map[];
    }

    /** `Get`: a miss leaves everything as it was; a hit reads the blob, moves the
        file to the front and re-binds the key to the new front item. */
    method Get(key: string) returns (r: Lookup)
      requires Valid()
      modifies this, queue
      ensures Valid()
      ensures (r, View()) == GetSpec(old(View()), storage.faults, key)
      ensures r.Hit? ==> key in files && files[key] == queue.front
      ensures !r.Hit? ==> files == old(files) && unchanged(queue)
    {
      if key !in files {
        GetMiss(View(), storage.faults, key);
        return Miss;
      }
      ghost var k := Find(queue.contents, key).value;
      var item := files[key];
      assert item == Ref(queue.order[k]) && queue.items[item.index].file == queue.contents[k];
      var res := storage.Read(queue.items[item.index].file.name);
      if res.Err? {
        GetReadFails(View(), storage.faults, key, k);
        return Failed(res.error);
      }
      ghost var s := View();
      GetHit(s, storage.faults, key, k);
      Promote(key, item, k);
      r := Hit(res.value);
      assert (r, View()) == GetSpec(s, storage.faults, key);
    }

    /** The hit path of `Get` (cache.go, lines 68-69): move the file at position `k`
        to the front and re-bind its key to the new front item. */
    method Promote(key: string, item: Ptr, ghost k: nat)
      requires Valid() && key in files && item == files[key]
      requires k < |queue.contents| && queue.contents[k].url == key
      modifies this, queue
      ensures Valid()
      ensures View() == CacheModel.State([old(queue.contents[k])] + Without(old(queue.contents), k), old(storage.blobs))
      ensures key in files && files[key] == queue.front
    {
      ghost var s, n := View(), |queue.items|;
      ghost var moved, order := [s.files[k]] + Without(s.files, k), [n] + Without(queue.order, k);
      ghost var index := files[key := Ref(n)];
      ConsistentMove(files, s.files, queue.order, s.blobs, capacity, nameOf, k, n);
      SumWithout(s.files, k);
      queue.MoveToFront(item, k);
      var front := queue.GetFront();
      files := files[key := front];
      assert files == index;
    }

    /** One round of `Put`'s eviction loop (cache.go, lines 96-102): delete the blob
        of the back file, drop its key and unlink its item. A failed `Delete` stops
        the round with nothing changed; unlinking the last item crashes. */
    method EvictBack() returns (err: Option<Error>, crashed: bool)
      requires Valid() && queue.contents != []
      modifies this, queue, storage`blobs
      ensures var s := old(View()); var last := s.files[|s.files| - 1];
        && (err.Some? <==> !Present(s.blobs, storage.faults, last.name))
        && (err.Some? ==> err == Some(DeleteError(last.name)) && !crashed && Valid() && View() == s && files == old(files))
        && (crashed <==> err.None? && |s.files| == 1)
        && (err.None? && !crashed ==>
              && Valid() && View() == CacheModel.State(s.files[..|s.files| - 1], s.blobs - {last.name})
              && files == old(files) - {last.url})
        && (crashed ==> storage.blobs == s.blobs - {last.name} == map[])
        && (crashed ==> files == map[] && queue.front == Nil && queue.back == Nil)
        && (crashed ==> queue.size == old(queue.size) == last.size > 0)
    {
      ghost var s := View();
      ghost var last := |queue.contents| - 1;
      var back := queue.GetBack();
      err := storage.Delete(queue.items[back.index].file.name);
      if err.Some? {
        return err, false;
      }
      ConsistentEvict(files, queue.contents, queue.order, s.blobs, capacity, nameOf);
      files := files - {queue.items[queue.back.index].file.url};
      crashed := queue.Remove(queue.back, last);
      if crashed {
        assert files.Keys == {};
        NamesDef(s.files);
        assert storage.blobs.Keys == {};
        SumFirst(s.files);
        assert s.files[..1] == s.files;
        return;
      }
      assert Without(s.files, last) == s.files[..last];
    }

    /** The end of `Put` (cache.go, lines 111-118): write the blob, then push the
        file in front and bind its key to the new front item. A failed `Write`
        changes nothing. */
    method Insert(file: File, data: Bytes) returns (err: Option<Error>)
      requires Valid() && file.url !in files && file.name == nameOf(file.url)
      requires file.size == |data| > 0 && queue.size + file.size <= capacity
      modifies this, queue, storage`blobs
      ensures var s := old(View());
        && (err.Some? <==> file.name in storage.faults)
        && (err.Some? ==> err == Some(WriteError(file.name)) && Valid() && View() == s)
        && (err.None? ==> Valid() && View() == CacheModel.State([file] + s.files, s.blobs[file.name := data]))
        && (err.None? ==> file.url in files && files[file.url] == queue.front)
    {
      ghost var kept, contents, order, n := storage.blobs, queue.contents, queue.order, |queue.items|;
      err := storage.Write(file.name, data);
      if err.Some? {
        assert storage.blobs == kept;
        return;
      }
      ConsistentPush(files, contents, order, kept, capacity, nameOf, file, data, n);
      SumZero(contents);
      var p := queue.PushFront(file);
      assert queue.contents == [file] + contents && queue.order == [n] + order;
      var front := queue.GetFront();
      files := files[file.url := front];
    }

    /** `Put`'s clean-up (cache.go, lines 94-108): while the new file of `need`
        bytes does not fit, evict the back file; stop at the first failed `Delete`,
        or with a crash once the last file is gone. The outcome is the model's
        `Evicted`. */
    method MakeRoom(need: nat) returns (err: Option<Error>, crashed: bool)
      requires Valid() && need <= capacity
      modifies this, queue, storage`blobs
      ensures var e := Evicted(old(View()), storage.faults, need, capacity);
        && (err.Some? <==> e.stop.DeleteFailed?)
        && (err.Some? ==> err.value == DeleteError(e.stop.name))
        && (crashed <==> e.stop == LastRemoved)
        && storage.blobs == e.blobs
        && (!crashed ==> Valid() && queue.contents == e.kept && files.Keys <= old(files.Keys))
        && (!crashed && err.None? ==> queue.size + need <= capacity)
        && (crashed ==> files == map[] && storage.blobs == map[] && queue.front == Nil && queue.back == Nil)
        && (crashed ==> old(queue.contents) != [] && queue.size == old(queue.contents)[0].size > 0)
    {
      ghost var e := Evicted(View(), storage.faults, need, capacity);
      err, crashed := None, false;
      if queue.size + need > capacity {
        while true
          invariant Valid() && files.Keys <= old(files.Keys)
          invariant queue.size + need > capacity
          invariant queue.contents != [] && queue.contents[0] == old(queue.contents)[0]
          invariant Evict(queue.contents, storage.blobs, storage.faults, need, capacity) == e
          decreases |queue.contents|
        {
          ghost var before := View();
          err, crashed := EvictBack();
          if err.Some? {
            return;
          }
          if crashed {
            return;
          }
          if queue.size + need <= capacity {
            assert Evict(before.files, before.blobs, storage.faults, need, capacity) == Eviction(queue.contents, storage.blobs, Fits);
            break;
          }
        }
      }
    }

    /** `Put` of a key the cache does not hold. Oversize data is refused; otherwise
        the back file is evicted (its blob deleted, its key dropped, its item
        unlinked) until the new file fits, then the blob is written and the file
        pushed in front. A failure part-way returns the error without undoing
        anything; unlinking the last file crashes. */
    method Put(key: string, data: Bytes) returns (r: Outcome)
      requires Valid() && key !in files && |data| > 0
      modifies this, queue, storage`blobs
      ensures r == PutSpec(old(View()), storage.faults, capacity, nameOf, key, data).0
      ensures r.Done? ==> Valid() && View() == PutSpec(old(View()), storage.faults, capacity, nameOf, key, data).1
      ensures r == Done(None) ==> key in files && files[key] == queue.front
      ensures r == NilDereference ==>
        && files == map[] && storage.blobs == map[] && queue.front == Nil && queue.back == Nil
        && old(queue.contents) != [] && queue.size == old(queue.contents)[0].size > 0
      ensures |data| > capacity ==>
        r == Done(Some(FileTooLarge)) && files == old(files) && unchanged(queue, storage)
    {
      if |data| > capacity {
        return Done(Some(FileTooLarge));
      }
      r := PutFitting(key, data);
    }

    /** `Put` of data no larger than the capacity (cache.go, lines 87-120). */
    method PutFitting(key: string, data: Bytes) returns (r: Outcome)
      requires Valid() && key !in files && 0 < |data| <= capacity
      modifies this, queue, storage`blobs
      ensures r == PutSpec(old(View()), storage.faults, capacity, nameOf, key, data).0
      ensures r.Done? ==> Valid() && View() == PutSpec(old(View()), storage.faults, capacity, nameOf, key, data).1
      ensures r == Done(None) ==> key in files && files[key] == queue.front
      ensures r == NilDereference ==>
        && files == map[] && storage.blobs == map[] && queue.front == Nil && queue.back == Nil
        && old(queue.contents) != [] && queue.size == old(queue.contents)[0].size > 0
    {
      var size := |data|;
      var name := nameOf(key);
      var file := File(key, size, name);
      ghost var s := View();
      var err, crashed := MakeRoom(size);
      if err.Some? {
        return Done(err);
      }
      if crashed {
        return NilDereference;
      }
      err := Insert(file, data);
      if err.Some? {
        return Done(err);
      }
      r := Done(None);
    }
  }
}
