/** What `Cache.Get` and `Cache.Put` do, as functions of the cache's abstract
    state: its files from most to least recently used, and the blobs in its store.
    The `Cache` class is proved to follow these functions step for step; the
    properties of the cache are proved about them here. */
module CacheModel {
  import opened Common
  import opened QueueList
  import opened Storage

  /** The files of the cache, most recently used first, and the blobs of its store. */
  datatype State = State(files: seq<File>, blobs: map<string, Bytes>)

  /** How `Put` ends: it returned an error value (or nil), or it panicked on the nil
      dereference in `remove` after evicting the last resident file. */
  datatype Outcome = Done(err: Option<Error>) | NilDereference

  /** Why the eviction loop stopped: the new file fits, a `Delete` failed, or the
      last resident file was removed (which crashes). */
  datatype Stop = Fits | DeleteFailed(name: string) | LastRemoved

  /** The files and blobs that remain when the eviction loop stops, and why it stopped. */
  datatype Eviction = Eviction(kept: seq<File>, blobs: map<string, Bytes>, stop: Stop)

  /** The keys of the files. Collected one file at a time, so that the verifier
      unfolds the set only as far as a proof asks; `UrlsDef` gives it at once. */
  function Urls(fs: seq<File>): set<string>
  {
    UrlsTo(fs, |fs|)
  }

  function UrlsTo(fs: seq<File>, n: nat): set<string>
    requires n <= |fs|
  {
    if n == 0 then {} else UrlsTo(fs, n - 1) + {fs[n - 1].url}
  }

  /** The blob names of the files, collected the same way; `NamesDef` gives them at once. */
  function Names(fs: seq<File>): set<string>
  {
    NamesTo(fs, |fs|)
  }

  function NamesTo(fs: seq<File>, n: nat): set<string>
    requires n <= |fs|
  {
    if n == 0 then {} else NamesTo(fs, n - 1) + {fs[n - 1].name}
  }

  lemma {:induction false} UrlsToDef(fs: seq<File>, n: nat)
    requires n <= |fs|
    ensures UrlsTo(fs, n) == set i | 0 <= i < n :: fs[i].url
  {
    if n > 0 {
      UrlsToDef(fs, n - 1);
      assert (set i | 0 <= i < n :: fs[i].url) == (set i | 0 <= i < n - 1 :: fs[i].url) + {fs[n - 1].url};
    }
  }

  lemma UrlsDef(fs: seq<File>)
    ensures Urls(fs) == set i | 0 <= i < |fs| :: fs[i].url
  {
    UrlsToDef(fs, |fs|);
  }

  lemma {:induction false} NamesToDef(fs: seq<File>, n: nat)
    requires n <= |fs|
    ensures NamesTo(fs, n) == set i | 0 <= i < n :: fs[i].name
  {
    if n > 0 {
      NamesToDef(fs, n - 1);
      assert (set i | 0 <= i < n :: fs[i].name) == (set i | 0 <= i < n - 1 :: fs[i].name) + {fs[n - 1].name};
    }
  }

  lemma NamesDef(fs: seq<File>)
    ensures Names(fs) == set i | 0 <= i < |fs| :: fs[i].name
  {
    NamesToDef(fs, |fs|);
  }

  predicate DistinctUrls(fs: seq<File>)
  {
    forall i, j :: 0 <= i < j < |fs| ==> fs[i].url != fs[j].url
  }

  /** Distinct keys get distinct blob names: what the cache assumes of SHA-256. */
  ghost predicate Injective(nameOf: string -> string)
  {
    forall a, b :: nameOf(a) == nameOf(b) ==> a == b
  }

  /** The invariant of a cache of capacity `capacity` that names its blobs with `nameOf`:
      one file per key, each nonempty and stored under its key's name, no more in
      total than the capacity, and exactly the files' blobs in the store. */
  ghost predicate WellFormed(s: State, capacity: int, nameOf: string -> string)
  {
    && DistinctUrls(s.files)
    && (forall i :: 0 <= i < |s.files| ==> s.files[i].size > 0 && s.files[i].name == nameOf(s.files[i].url))
    && (s.files == [] || Sum(s.files) <= capacity)
    && s.blobs.Keys == Names(s.files)
  }

  /** The running total grows with the number of files counted. */
  lemma {:induction false} SumToMonotone(fs: seq<File>, m: nat, n: nat)
    requires m <= n <= |fs|
    ensures SumTo(fs, m) <= SumTo(fs, n)
  {
    if m < n {
      SumToMonotone(fs, m, n - 1);
    }
  }

  lemma SumPrefixAtMost(fs: seq<File>, n: nat)
    requires n <= |fs|
    ensures Sum(fs[..n]) <= Sum(fs)
  {
    SumPrefixTo(fs, n);
    SumToMonotone(fs, n, |fs|);
  }

  /** `Put`'s eviction loop (cache.go, lines 95-107), entered because the new file
      of `need` bytes does not fit: delete the back file's blob (stop if that fails),
      drop the file (stop, crashing, if it was the last one), and stop once the new
      file fits. */
  function Evict(fs: seq<File>, blobs: map<string, Bytes>, faults: set<string>, need: nat, capacity: int): (e: Eviction)
    requires need <= capacity < Sum(fs) + need
    ensures |e.kept| <= |fs| && e.kept == fs[..|e.kept|]
    decreases |fs|
  {
    var last := fs[|fs| - 1];
    if !Present(blobs, faults, last.name) then
      Eviction(fs, blobs, DeleteFailed(last.name))
    else
      var rest := fs[..|fs| - 1];
      var left := blobs - {last.name};
      if rest == [] then
        Eviction(rest, left, LastRemoved)
      else if Sum(rest) + need <= capacity then
        Eviction(rest, left, Fits)
      else
        var e := Evict(rest, left, faults, need, capacity);
        assert fs[..|e.kept|] == rest[..|e.kept|];
        e
  }

  /** The loop deletes exactly the blobs of the files it evicts, and none of their
      names was failing. */
  lemma {:induction false} EvictBlobs(fs: seq<File>, blobs: map<string, Bytes>, faults: set<string>, need: nat, capacity: int)
    requires need <= capacity < Sum(fs) + need
    ensures var e := Evict(fs, blobs, faults, need, capacity);
      && e.blobs == blobs - Names(fs[|e.kept|..])
      && forall i :: |e.kept| <= i < |fs| ==> fs[i].name !in faults
    decreases |fs|
  {
    var e := Evict(fs, blobs, faults, need, capacity);
    var last := fs[|fs| - 1];
    var rest := fs[..|fs| - 1];
    if !Present(blobs, faults, last.name) {
      assert fs[|fs|..] == [];
    } else {
      assert fs[|rest|..] == [last];
      assert Names([last]) == {last.name} by {
        NamesDef([last]);
      }
      if rest != [] && Sum(rest) + need > capacity {
        EvictBlobs(rest, blobs - {last.name}, faults, need, capacity);
        assert fs[|e.kept|..] == rest[|e.kept|..] + [last];
        NamesAppend(rest[|e.kept|..], last);
      }
    }
  }

  /** The loop goes on while the new file does not fit, and says why it stopped:
      the file fits after at least one eviction; or the `Delete` of the back file,
      still over capacity, failed; or nothing is left. */
  lemma {:induction false} EvictStops(fs: seq<File>, blobs: map<string, Bytes>, faults: set<string>, need: nat, capacity: int)
    requires need <= capacity < Sum(fs) + need
    ensures var e := Evict(fs, blobs, faults, need, capacity);
      && (forall n :: |e.kept| < n <= |fs| ==> Sum(fs[..n]) + need > capacity)
      && (e.stop == Fits ==> e.kept != [] && |e.kept| < |fs| && Sum(e.kept) + need <= capacity)
      && (e.stop.DeleteFailed? ==>
            && e.kept != [] && e.stop.name == e.kept[|e.kept| - 1].name
            && !Present(e.blobs, faults, e.stop.name) && Sum(e.kept) + need > capacity)
      && (e.stop == LastRemoved ==> e.kept == [])
    decreases |fs|
  {
    var e := Evict(fs, blobs, faults, need, capacity);
    var last := fs[|fs| - 1];
    var rest := fs[..|fs| - 1];
    assert fs[..|fs|] == fs;
    if Present(blobs, faults, last.name) && rest != [] && Sum(rest) + need > capacity {
      EvictStops(rest, blobs - {last.name}, faults, need, capacity);
      forall n | |e.kept| < n <= |fs| ensures Sum(fs[..n]) + need > capacity {
        if n <= |rest| {
          assert rest[..n] == fs[..n];
        }
      }
    }
  }

  lemma NamesAppend(fs: seq<File>, f: File)
    ensures Names(fs + [f]) == Names(fs) + {f.name}
  {
    var gs := fs + [f];
    NamesDef(fs);
    NamesDef(gs);
    assert gs[|fs|] == f;
    forall n | n in Names(fs) ensures n in Names(gs) {
      var i :| 0 <= i < |fs| && fs[i].name == n;
      assert gs[i] == fs[i];
    }
  }

  /** What is left after making room for `need` bytes: nothing is evicted when they fit already. */
  function Evicted(s: State, faults: set<string>, need: nat, capacity: int): Eviction
    requires need <= capacity
  {
    if Sum(s.files) + need > capacity then Evict(s.files, s.blobs, faults, need, capacity)
    else Eviction(s.files, s.blobs, Fits)
  }

  /** The cache's `Put` (cache.go, lines 75-121) on the abstract state, when the
      store fails on the names in `faults`. After the nil-dereference crash no
      file and no blob is left; the queue's stale running total, which this state
      does not record, is stated by the class's `Put`. */
  function PutSpec(s: State, faults: set<string>, capacity: int, nameOf: string -> string,
                   key: string, data: Bytes): (Outcome, State)
  {
    if |data| > capacity then
      (Done(Some(FileTooLarge)), s)
    else
      var name := nameOf(key);
      var e := Evicted(s, faults, |data|, capacity);
      match e.stop
      case DeleteFailed(n) => (Done(Some(DeleteError(n))), State(e.kept, e.blobs))
      case LastRemoved => (NilDereference, State(e.kept, e.blobs))
      case Fits =>
        if name in faults then (Done(Some(WriteError(name))), State(e.kept, e.blobs))
        else (Done(None), State([File(key, |data|, name)] + e.kept, e.blobs[name := data]))
  }

  /** The position of the file stored under `key`. */
  function Find(fs: seq<File>, key: string): (r: Option<nat>)
    ensures r.Some? ==> r.value < |fs| && fs[r.value].url == key
    ensures r.None? <==> key !in Urls(fs)
  {
    if fs == [] then None
    else
      UrlsCons(fs);
      if fs[0].url == key then Some(0)
      else
      match Find(fs[1..], key)
      case None => None
      case Some(k) =>
        assert fs[k + 1] == fs[1..][k];
        Some(k + 1)
  }

  lemma UrlsCons(fs: seq<File>)
    requires fs != []
    ensures Urls(fs) == {fs[0].url} + Urls(fs[1..])
  {
    UrlsDef(fs);
    UrlsDef(fs[1..]);
    forall u | u in Urls(fs) ensures u in {fs[0].url} + Urls(fs[1..]) {
      var i :| 0 <= i < |fs| && fs[i].url == u;
      if i > 0 {
        assert fs[1..][i - 1] == fs[i];
      }
    }
    forall u | u in Urls(fs[1..]) ensures u in Urls(fs) {
      var i :| 0 <= i < |fs[1..]| && fs[1..][i].url == u;
      assert fs[i + 1] == fs[1..][i];
    }
  }

  /** The cache's `Get` (cache.go, lines 50-72) on the abstract state. */
  function GetSpec(s: State, faults: set<string>, key: string): (Lookup, State)
  {
    match Find(s.files, key)
    case None => (Miss, s)
    case Some(k) =>
      var name := s.files[k].name;
      if !Present(s.blobs, faults, name) then (Failed(ReadError(name)), s)
      else (Hit(s.blobs[name]), State([s.files[k]] + Without(s.files, k), s.blobs))
  }

  // Properties of `Put`

  /** `Put` refuses data larger than the whole cache, and only then, leaving everything as it was. */
  lemma PutTooLarge(s: State, faults: set<string>, capacity: int, nameOf: string -> string, key: string, data: Bytes)
    ensures PutSpec(s, faults, capacity, nameOf, key, data).0 == Done(Some(FileTooLarge)) <==> |data| > capacity
    ensures |data| > capacity ==> PutSpec(s, faults, capacity, nameOf, key, data).1 == s
  {
  }

  /** A successful `Put`: the new file is the most recently used one, its blob holds
      the data, the files evicted to make room were the least recently used ones and
      no more than needed, and the total fits in the capacity. */
  lemma PutSuccess(s: State, faults: set<string>, capacity: int, nameOf: string -> string, key: string, data: Bytes)
    requires PutSpec(s, faults, capacity, nameOf, key, data).0 == Done(None)
    ensures var t := PutSpec(s, faults, capacity, nameOf, key, data).1;
      var kept := |t.files| - 1;
      && |data| <= capacity && nameOf(key) !in faults
      && t.files != [] && t.files[0] == File(key, |data|, nameOf(key))
      && kept <= |s.files| && t.files[1..] == s.files[..kept]
      && t.blobs == (s.blobs - Names(s.files[kept..]))[nameOf(key) := data]
      && (forall n :: kept < n <= |s.files| ==> Sum(s.files[..n]) + |data| > capacity)
      && Sum(t.files) <= capacity
  {
    var t := PutSpec(s, faults, capacity, nameOf, key, data).1;
    var e := Evicted(s, faults, |data|, capacity);
    EvictedFacts(s, faults, |data|, capacity);
    assert t.files[1..] == e.kept;
    SumCons(t.files[0], e.kept);
  }

  /** Every fact about the eviction that `Put` runs, whether or not it runs the loop. */
  lemma EvictedFacts(s: State, faults: set<string>, need: nat, capacity: int)
    requires need <= capacity
    ensures var e := Evicted(s, faults, need, capacity);
      && |e.kept| <= |s.files| && e.kept == s.files[..|e.kept|]
      && e.blobs == s.blobs - Names(s.files[|e.kept|..])
      && (forall i :: |e.kept| <= i < |s.files| ==> s.files[i].name !in faults)
      && (forall n :: |e.kept| < n <= |s.files| ==> Sum(s.files[..n]) + need > capacity)
      && (e.stop == Fits ==> Sum(e.kept) + need <= capacity && (e.kept == [] ==> s.files == []))
      && (e.stop.DeleteFailed? ==>
            && e.kept != [] && e.stop.name == e.kept[|e.kept| - 1].name
            && !Present(e.blobs, faults, e.stop.name) && Sum(e.kept) + need > capacity)
      && (e.stop == LastRemoved ==> e.kept == [])
  {
    if Sum(s.files) + need > capacity {
      EvictBlobs(s.files, s.blobs, faults, need, capacity);
      EvictStops(s.files, s.blobs, faults, need, capacity);
    } else {
      assert s.files[..|s.files|] == s.files;
      assert s.files[|s.files|..] == [];
    }
  }

  /** Eviction stops as soon as the new file fits: the files kept are the longest
      run of most recently used files beside which the new file fits. */
  lemma EvictedLongest(s: State, faults: set<string>, need: nat, capacity: int)
    requires need <= capacity && Evicted(s, faults, need, capacity).stop == Fits
    ensures forall n :: 0 <= n <= |s.files| ==>
      (Sum(s.files[..n]) + need <= capacity <==> n <= |Evicted(s, faults, need, capacity).kept|)
  {
    var e := Evicted(s, faults, need, capacity);
    EvictedFacts(s, faults, need, capacity);
    forall n | 0 <= n <= |e.kept| ensures Sum(s.files[..n]) <= Sum(e.kept) {
      SumPrefixAtMost(e.kept, n);
      assert e.kept[..n] == s.files[..n];
    }
  }

  /** A failed `Put` is not rolled back: the files evicted before the failure stay
      evicted, nothing new is added, and a failing `Delete` leaves its file at the back. */
  lemma PutFailure(s: State, faults: set<string>, capacity: int, nameOf: string -> string, key: string, data: Bytes)
    requires |data| <= capacity
    requires PutSpec(s, faults, capacity, nameOf, key, data).0.Done?
    requires PutSpec(s, faults, capacity, nameOf, key, data).0.err.Some?
    ensures var (r, t) := PutSpec(s, faults, capacity, nameOf, key, data);
      && |t.files| <= |s.files| && t.files == s.files[..|t.files|]
      && t.blobs == s.blobs - Names(s.files[|t.files|..])
      && (r.err.value == WriteError(nameOf(key)) || (t.files != [] && r.err.value == DeleteError(t.files[|t.files| - 1].name)))
      && (r.err.value == WriteError(nameOf(key)) <==> nameOf(key) in faults && Sum(t.files) + |data| <= capacity)
  {
    EvictedFacts(s, faults, |data|, capacity);
  }

  /** The names of a sequence are those of any prefix and the rest. */
  lemma NamesSplit(fs: seq<File>, n: nat)
    requires n <= |fs|
    ensures Names(fs) == Names(fs[..n]) + Names(fs[n..])
  {
    NamesDef(fs);
    NamesDef(fs[..n]);
    NamesDef(fs[n..]);
    forall x | x in Names(fs) ensures x in Names(fs[..n]) + Names(fs[n..]) {
      var i :| 0 <= i < |fs| && fs[i].name == x;
      if i < n {
        assert fs[..n][i] == fs[i];
      } else {
        assert fs[n..][i - n] == fs[i];
      }
    }
    forall x | x in Names(fs[..n]) ensures x in Names(fs) {
      var i :| 0 <= i < n && fs[..n][i].name == x;
      assert fs[i] == fs[..n][i];
    }
    forall x | x in Names(fs[n..]) ensures x in Names(fs) {
      var j :| 0 <= j < |fs| - n && fs[n..][j].name == x;
      assert fs[n + j] == fs[n..][j];
    }
  }

  /** With one file per key and names given by an injective `nameOf`, the blobs
      that remain after evicting a suffix are exactly the names of the prefix. */
  lemma NamesPrefix(fs: seq<File>, n: nat, nameOf: string -> string)
    requires n <= |fs| && DistinctUrls(fs) && Injective(nameOf)
    requires forall i :: 0 <= i < |fs| ==> fs[i].name == nameOf(fs[i].url)
    ensures Names(fs) - Names(fs[n..]) == Names(fs[..n])
  {
    NamesSplit(fs, n);
    NamesDef(fs[..n]);
    NamesDef(fs[n..]);
    forall i, j | 0 <= i < n && 0 <= j < |fs| - n ensures fs[..n][i].name != fs[n..][j].name {
      assert fs[..n][i] == fs[i] && fs[n..][j] == fs[n + j];
      assert fs[i].url != fs[n + j].url;
    }
  }

  lemma NamesCons(f: File, fs: seq<File>)
    ensures Names([f] + fs) == {f.name} + Names(fs)
    ensures Urls([f] + fs) == {f.url} + Urls(fs)
  {
    var gs := [f] + fs;
    NamesDef(gs);
    NamesDef(fs);
    UrlsDef(gs);
    UrlsDef(fs);
    assert gs[0] == f;
    forall i | 0 <= i < |fs| ensures gs[i + 1] == fs[i] { }
    forall x | x in Names(gs) ensures x in {f.name} + Names(fs) {
      var i :| 0 <= i < |gs| && gs[i].name == x;
      if i > 0 {
        assert gs[i] == fs[i - 1];
      }
    }
    forall x | x in Urls(gs) ensures x in {f.url} + Urls(fs) {
      var i :| 0 <= i < |gs| && gs[i].url == x;
      if i > 0 {
        assert gs[i] == fs[i - 1];
      }
    }
  }

  lemma UrlsPrefix(fs: seq<File>, n: nat)
    requires n <= |fs|
    ensures Urls(fs[..n]) <= Urls(fs)
  {
    UrlsDef(fs);
    UrlsDef(fs[..n]);
    forall x | x in Urls(fs[..n]) ensures x in Urls(fs) {
      var i :| 0 <= i < n && fs[..n][i].url == x;
      assert fs[i] == fs[..n][i];
    }
  }

  /** The files and blobs left by the eviction form a well-formed cache. */
  lemma EvictedWellFormed(s: State, faults: set<string>, need: nat, capacity: int, nameOf: string -> string)
    requires WellFormed(s, capacity, nameOf) && Injective(nameOf) && need <= capacity
    ensures var e := Evicted(s, faults, need, capacity);
      WellFormed(State(e.kept, e.blobs), capacity, nameOf)
  {
    var e := Evicted(s, faults, need, capacity);
    var n := |e.kept|;
    EvictedFacts(s, faults, need, capacity);
    NamesPrefix(s.files, n, nameOf);
    SumPrefixAtMost(s.files, n);
    assert forall i :: 0 <= i < n ==> e.kept[i] == s.files[i];
  }

  /** A new nonempty file under a new key, named by `nameOf` and fitting in the
      capacity, keeps a well-formed cache well formed. */
  lemma PushWellFormed(s: State, capacity: int, nameOf: string -> string, f: File, data: Bytes)
    requires WellFormed(s, capacity, nameOf) && Injective(nameOf)
    requires f.url !in Urls(s.files) && f.size > 0 && f.name == nameOf(f.url)
    requires Sum(s.files) + f.size <= capacity
    ensures WellFormed(State([f] + s.files, s.blobs[f.name := data]), capacity, nameOf)
  {
    var fs := [f] + s.files;
    NamesCons(f, s.files);
    SumCons(f, s.files);
    UrlsDef(s.files);
    forall i, j | 0 <= i < j < |fs| ensures fs[i].url != fs[j].url {
      assert fs[j] == s.files[j - 1];
      if i == 0 {
        assert fs[j].url in Urls(s.files);
      } else {
        assert fs[i] == s.files[i - 1];
      }
    }
    forall i | 0 <= i < |fs| ensures fs[i].size > 0 && fs[i].name == nameOf(fs[i].url) {
      if i > 0 {
        assert fs[i] == s.files[i - 1];
      }
    }
  }

  /** `Put` of a key the cache does not hold, with nonempty data, keeps the cache
      well formed whatever it returns; after the crash the cache is empty. */
  lemma PutWellFormed(s: State, faults: set<string>, capacity: int, nameOf: string -> string, key: string, data: Bytes)
    requires WellFormed(s, capacity, nameOf) && Injective(nameOf)
    requires key !in Urls(s.files) && |data| > 0
    ensures var (r, t) := PutSpec(s, faults, capacity, nameOf, key, data);
      && WellFormed(t, capacity, nameOf)
      && (r == NilDereference ==> t.files == [] && t.blobs == map[])
  {
    if |data| <= capacity {
      var e := Evicted(s, faults, |data|, capacity);
      EvictedFacts(s, faults, |data|, capacity);
      EvictedWellFormed(s, faults, |data|, capacity, nameOf);
      if e.stop == Fits && nameOf(key) !in faults {
        UrlsPrefix(s.files, |e.kept|);
        PushWellFormed(State(e.kept, e.blobs), capacity, nameOf, File(key, |data|, nameOf(key)), data);
      } else if e.stop == LastRemoved {
        assert e.blobs.Keys == {};
      }
    }
  }

  /** The first file alone weighs its size, and no more than all of them. */
  lemma SumFirst(fs: seq<File>)
    requires fs != []
    ensures Sum(fs[..1]) == fs[0].size <= Sum(fs)
  {
    SumPrefix(fs, 0);
    assert fs[..0] == [];
    SumPrefixAtMost(fs, 1);
  }

  /** A store that fails on none of the cache's names lets the eviction delete
      every blob it reaches: it never stops on a failed `Delete`. */
  lemma EvictNeverFails(s: State, faults: set<string>, need: nat, capacity: int, nameOf: string -> string)
    requires WellFormed(s, capacity, nameOf) && Injective(nameOf) && Names(s.files) !! faults && need <= capacity
    ensures !Evicted(s, faults, need, capacity).stop.DeleteFailed?
  {
    var e := Evicted(s, faults, need, capacity);
    var n := |e.kept|;
    EvictedFacts(s, faults, need, capacity);
    NamesPrefix(s.files, n, nameOf);
    if e.kept != [] {
      assert e.kept[n - 1] == s.files[..n][n - 1];
      NamesDef(s.files[..n]);
      assert e.kept[n - 1].name in Names(s.files[..n]);
      NamesSplit(s.files, n);
      assert Present(e.blobs, faults, e.kept[n - 1].name);
    }
  }

  /** Data that fits beside the cached files is added in front of them; nothing is
      evicted. */
  lemma PutFits(s: State, faults: set<string>, capacity: int, nameOf: string -> string, key: string, data: Bytes)
    requires Sum(s.files) + |data| <= capacity && nameOf(key) !in faults
    ensures PutSpec(s, faults, capacity, nameOf, key, data) ==
      (Done(None), State([File(key, |data|, nameOf(key))] + s.files, s.blobs[nameOf(key) := data]))
  {
  }

  /** The crash: in a well-formed cache whose store does not fail, `Put` dereferences
      nil exactly when the new data fits in the capacity but not together with the
      most recently used file, because then eviction must remove every file. */
  lemma PutCrashes(s: State, faults: set<string>, capacity: int, nameOf: string -> string, key: string, data: Bytes)
    requires WellFormed(s, capacity, nameOf) && Injective(nameOf) && Names(s.files) !! faults
    ensures PutSpec(s, faults, capacity, nameOf, key, data).0 == NilDereference
            <==> |data| <= capacity && s.files != [] && s.files[0].size + |data| > capacity
  {
    if |data| <= capacity {
      var e := Evicted(s, faults, |data|, capacity);
      EvictedFacts(s, faults, |data|, capacity);
      EvictNeverFails(s, faults, |data|, capacity, nameOf);
      if s.files != [] {
        SumFirst(s.files);
        if e.kept != [] {
          SumFirst(e.kept);
          assert e.kept[0] == s.files[0];
        }
      }
    }
  }

  /** What a `Put` stored, a `Get` of the same key finds, leaving the cache as it is:
      the file is already the most recently used one. */
  lemma PutThenGet(s: State, faults: set<string>, capacity: int, nameOf: string -> string, key: string, data: Bytes)
    requires PutSpec(s, faults, capacity, nameOf, key, data).0 == Done(None)
    ensures var t := PutSpec(s, faults, capacity, nameOf, key, data).1;
      GetSpec(t, faults, key) == (Hit(data), t)
  {
    var t := PutSpec(s, faults, capacity, nameOf, key, data).1;
    PutSuccess(s, faults, capacity, nameOf, key, data);
    assert [t.files[0]] + Without(t.files, 0) == t.files;
  }

  // Properties of `Get`

  /** A key the cache does not hold is a miss, and nothing changes. */
  lemma GetMiss(s: State, faults: set<string>, key: string)
    requires key !in Urls(s.files)
    ensures GetSpec(s, faults, key) == (Miss, s)
  {
  }

  /** The file of a held key whose blob cannot be read: the read error, and nothing changes. */
  lemma GetReadFails(s: State, faults: set<string>, key: string, k: nat)
    requires DistinctUrls(s.files) && k < |s.files| && s.files[k].url == key
    requires !Present(s.blobs, faults, s.files[k].name)
    ensures GetSpec(s, faults, key) == (Failed(ReadError(s.files[k].name)), s)
  {
    UrlsDef(s.files);
    var j := Find(s.files, key).value;
    assert j == k by {
      assert s.files[j].url == s.files[k].url;
    }
  }

  /** A hit returns the blob and moves the file to the front, the blobs unchanged. */
  lemma GetHit(s: State, faults: set<string>, key: string, k: nat)
    requires DistinctUrls(s.files) && k < |s.files| && s.files[k].url == key
    requires Present(s.blobs, faults, s.files[k].name)
    ensures GetSpec(s, faults, key) == (Hit(s.blobs[s.files[k].name]), State([s.files[k]] + Without(s.files, k), s.blobs))
  {
    UrlsDef(s.files);
    var j := Find(s.files, key).value;
    assert j == k by {
      assert s.files[j].url == s.files[k].url;
    }
  }

  /** After a hit the file is the most recently used one, the others keep their
      order, and the total size and the blobs stay the same. */
  lemma GetPromotes(s: State, faults: set<string>, key: string, k: nat)
    requires DistinctUrls(s.files) && k < |s.files| && s.files[k].url == key
    requires Present(s.blobs, faults, s.files[k].name)
    ensures var t := GetSpec(s, faults, key).1;
      && t.files != [] && t.files[0] == s.files[k] && t.files[1..] == Without(s.files, k)
      && Sum(t.files) == Sum(s.files) && t.blobs == s.blobs
  {
    GetHit(s, faults, key, k);
    SumMoveToFront(s.files, k);
    assert ([s.files[k]] + Without(s.files, k))[1..] == Without(s.files, k);
  }

  /** Where the file at position `i` came from when the file at `k` moved to the front. */
  function MovedFrom(k: nat, i: nat): nat
  {
    if i == 0 then k else if i <= k then i - 1 else i
  }

  lemma MovedAt(fs: seq<File>, k: nat)
    requires k < |fs|
    ensures var gs := [fs[k]] + Without(fs, k);
      |gs| == |fs| && forall i :: 0 <= i < |gs| ==> MovedFrom(k, i) < |fs| && gs[i] == fs[MovedFrom(k, i)]
  {
  }

  /** Moving a file to the front keeps the set of names and the set of keys. */
  lemma NamesMove(fs: seq<File>, k: nat)
    requires k < |fs|
    ensures Names([fs[k]] + Without(fs, k)) == Names(fs)
    ensures Urls([fs[k]] + Without(fs, k)) == Urls(fs)
  {
    var gs := [fs[k]] + Without(fs, k);
    MovedAt(fs, k);
    NamesDef(fs);
    NamesDef(gs);
    UrlsDef(fs);
    UrlsDef(gs);
    forall i | 0 <= i < |fs| ensures fs[i].name in Names(gs) && fs[i].url in Urls(gs) {
      var j := if i == k then 0 else if i < k then i + 1 else i;
      assert gs[j] == fs[i];
    }
    forall j | 0 <= j < |gs| ensures gs[j].name in Names(fs) && gs[j].url in Urls(fs) {
      assert gs[j] == fs[MovedFrom(k, j)];
    }
  }

  /** Moving a file to the front keeps a cache well formed. */
  lemma MoveWellFormed(s: State, k: nat, capacity: int, nameOf: string -> string)
    requires WellFormed(s, capacity, nameOf) && k < |s.files|
    ensures WellFormed(State([s.files[k]] + Without(s.files, k), s.blobs), capacity, nameOf)
  {
    var fs := s.files;
    var gs := [fs[k]] + Without(fs, k);
    NamesMove(fs, k);
    SumMoveToFront(fs, k);
    MovedAt(fs, k);
    forall i, j | 0 <= i < j < |gs| ensures gs[i].url != gs[j].url {
      var i', j' := MovedFrom(k, i), MovedFrom(k, j);
      if i' < j' {
        assert fs[i'].url != fs[j'].url;
      } else {
        assert fs[j'].url != fs[i'].url;
      }
    }
  }

  /** `Get` keeps a well-formed cache well formed. */
  lemma GetWellFormed(s: State, faults: set<string>, capacity: int, nameOf: string -> string, key: string)
    requires WellFormed(s, capacity, nameOf)
    ensures WellFormed(GetSpec(s, faults, key).1, capacity, nameOf)
  {
    if Find(s.files, key).Some? {
      MoveWellFormed(s, Find(s.files, key).value, capacity, nameOf);
    }
  }
}
