/** The scenarios of the cache's tests, on the abstract state: filling a cache of
    300000 bytes with the eight test files, and the crash on evicting the last file. */
module CacheTests {
  import opened Common
  import opened QueueList
  import opened CacheModel
  import QueueTests

  const Capacity: int := 300000

  /** The i-th test file as the cache records it, named by `nameOf`. */
  function Entry(nameOf: string -> string, i: nat): File
    requires i < 8
  {
    var f := QueueTests.TestFiles()[i];
    File(f.url, f.size, nameOf(f.url))
  }

  /** The files of the cache after the first `n` test files went in without
      eviction: the last one first. */
  function Entries(nameOf: string -> string, n: nat): (r: seq<File>)
    requires n <= 8
    ensures |r| == n && forall i :: 0 <= i < n ==> r[i] == Entry(nameOf, n - 1 - i)
  {
    if n == 0 then [] else [Entry(nameOf, n - 1)] + Entries(nameOf, n - 1)
  }

  function Blobs(nameOf: string -> string, data: seq<Bytes>, n: nat): map<string, Bytes>
    requires n <= |data| && n <= 8
  {
    if n == 0 then map[] else Blobs(nameOf, data, n - 1)[Entry(nameOf, n - 1).name := data[n - 1]]
  }

  /** "cache oversize": `Put` of the first `n` test files, one after the other, into
      an empty cache of 300000 bytes over a store that never fails; the replay stops
      at the first `Put` that does not return nil. */
  function Replay(nameOf: string -> string, data: seq<Bytes>, n: nat): (Outcome, State)
    requires n <= |data| && n <= 8
  {
    if n == 0 then (Done(None), State([], map[]))
    else
      var (r, s) := Replay(nameOf, data, n - 1);
      if r != Done(None) then (r, s)
      else PutSpec(s, {}, Capacity, nameOf, QueueTests.TestFiles()[n - 1].url, data[n - 1])
  }

  lemma TestUrlsDistinct()
    ensures forall a, b :: 0 <= a < b < 8 ==> QueueTests.TestFiles()[a].url != QueueTests.TestFiles()[b].url
  {
    var fs := QueueTests.TestFiles();
    forall a, b | 0 <= a < b < 8 ensures fs[a].url != fs[b].url {
      assert a in {0, 1, 2, 3, 4, 5, 6} && b in {1, 2, 3, 4, 5, 6, 7};
    }
  }

  /** Each of the first seven test files fits beside the ones before it. */
  lemma FirstSevenFit(k: nat)
    requires k < 7
    ensures SumTo(QueueTests.TestFiles(), k + 1) == SumTo(QueueTests.TestFiles(), k) + QueueTests.TestFiles()[k].size <= Capacity
  {
    var fs := QueueTests.TestFiles();
    SumToMonotone(fs, k + 1, 7);
    assert SumTo(fs, 4) == 106435;
    assert SumTo(fs, 7) == 237424;
  }

  /** A test file's key is not among the keys of the files before it. */
  lemma EntryFresh(nameOf: string -> string, k: nat)
    requires k < 8
    ensures Entry(nameOf, k).url !in Urls(Entries(nameOf, k))
  {
    TestUrlsDistinct();
    UrlsDef(Entries(nameOf, k));
  }

  /** The first seven test files, 237424 bytes in all, go in without eviction. */
  lemma {:induction false} ReplayFits(nameOf: string -> string, data: seq<Bytes>, n: nat)
    requires Injective(nameOf) && n <= 7
    requires |data| == 8 && forall i :: 0 <= i < 8 ==> |data[i]| == QueueTests.TestFiles()[i].size
    ensures Replay(nameOf, data, n) == (Done(None), State(Entries(nameOf, n), Blobs(nameOf, data, n)))
    ensures WellFormed(State(Entries(nameOf, n), Blobs(nameOf, data, n)), Capacity, nameOf)
    ensures Sum(Entries(nameOf, n)) == SumTo(QueueTests.TestFiles(), n)
  {
    var fs := QueueTests.TestFiles();
    if n == 0 {
      NamesDef([]);
      UrlsDef([]);
    } else {
      var k := n - 1;
      ReplayFits(nameOf, data, k);
      var s := State(Entries(nameOf, k), Blobs(nameOf, data, k));
      var f := Entry(nameOf, k);
      FirstSevenFit(k);
      PutFits(s, {}, Capacity, nameOf, f.url, data[k]);
      assert Entries(nameOf, n) == [f] + s.files;
      SumCons(f, s.files);
      EntryFresh(nameOf, k);
      PushWellFormed(s, Capacity, nameOf, f, data[k]);
    }
  }

  lemma SumPair(a: File, b: File)
    ensures Sum([a, b]) == a.size + b.size
  {
    SumCons(a, [b]);
    SumCons(b, []);
    assert [b] + [] == [b] && [a] + [b] == [a, b];
  }

  /** The eviction for the eighth file, of 226943 bytes, from the seven before it
      (237424 bytes, the newest of 41771 and the one before it of 47656 bytes): all
      but the newest are evicted, and then the eighth file fits. */
  lemma OversizeEviction(s: State, nameOf: string -> string, need: nat)
    requires Injective(nameOf) && WellFormed(s, Capacity, nameOf)
    requires |s.files| >= 2 && Sum(s.files) == 237424 && need == 226943
    requires s.files[0].size == 41771 && s.files[1].size == 47656
    ensures Evicted(s, {}, need, Capacity).stop == Fits
    ensures Evicted(s, {}, need, Capacity).kept == s.files[..1]
  {
    var e := Evicted(s, {}, need, Capacity);
    EvictedFacts(s, {}, need, Capacity);
    EvictNeverFails(s, {}, need, Capacity, nameOf);
    PutCrashes(s, {}, Capacity, nameOf, "", seq(need, _ => 0));
    EvictedLongest(s, {}, need, Capacity);
    SumFirst(s.files);
    assert s.files[..2] == [s.files[0], s.files[1]];
    SumPair(s.files[0], s.files[1]);
    assert Sum(s.files[..1]) + need <= Capacity < Sum(s.files[..2]) + need;
  }

  /** `Put` of 226943 bytes into that cache: it keeps only the newest file, then
      pushes the new one in front of it. */
  lemma OversizePut(s: State, nameOf: string -> string, key: string, data: Bytes)
    requires Injective(nameOf) && WellFormed(s, Capacity, nameOf) && key !in Urls(s.files)
    requires |s.files| >= 2 && Sum(s.files) == 237424 && |data| == 226943
    requires s.files[0].size == 41771 && s.files[1].size == 47656
    ensures PutSpec(s, {}, Capacity, nameOf, key, data).0 == Done(None)
    ensures PutSpec(s, {}, Capacity, nameOf, key, data).1.files == [File(key, |data|, nameOf(key)), s.files[0]]
    ensures PutSpec(s, {}, Capacity, nameOf, key, data).1.blobs.Keys == {nameOf(key), s.files[0].name}
    ensures Sum(PutSpec(s, {}, Capacity, nameOf, key, data).1.files) == 268714
  {
    OversizeEviction(s, nameOf, |data|);
    PutWellFormed(s, {}, Capacity, nameOf, key, data);
    var f := File(key, |data|, nameOf(key));
    assert s.files[..1] == [s.files[0]];
    NamesCons(f, [s.files[0]]);
    NamesDef([s.files[0]]);
    SumPair(f, s.files[0]);
  }

  /** "cache oversize": after the eighth file, of 226943 bytes, only it and the
      41771-byte file pushed before it remain; the others were evicted from the back,
      least recently used first, and the total stays within the capacity. */
  lemma CacheOversize(nameOf: string -> string, data: seq<Bytes>)
    requires Injective(nameOf)
    requires |data| == 8 && forall i :: 0 <= i < 8 ==> |data[i]| == QueueTests.TestFiles()[i].size
    ensures Replay(nameOf, data, 8).0 == Done(None)
    ensures Replay(nameOf, data, 8).1.files == [Entry(nameOf, 7), Entry(nameOf, 6)]
    ensures Replay(nameOf, data, 8).1.blobs.Keys == {Entry(nameOf, 7).name, Entry(nameOf, 6).name}
    ensures Sum(Replay(nameOf, data, 8).1.files) == 268714 <= Capacity
  {
    ReplayFits(nameOf, data, 7);
    assert SumTo(QueueTests.TestFiles(), 4) == 106435;
    assert SumTo(QueueTests.TestFiles(), 7) == 237424;
    EntryFresh(nameOf, 7);
    OversizePut(State(Entries(nameOf, 7), Blobs(nameOf, data, 7)), nameOf, Entry(nameOf, 7).url, data[7]);
  }

  /** The crash: a cache of 1000 bytes holding one 600-byte file, asked to `Put`
      another 600 bytes, evicts that file and dereferences nil. */
  lemma CrashOnLastEviction(nameOf: string -> string, k1: string, k2: string, d1: Bytes, d2: Bytes)
    requires |d1| == 600 && |d2| == 600
    ensures var (r1, s1) := PutSpec(State([], map[]), {}, 1000, nameOf, k1, d1);
      && r1 == Done(None) && s1.files == [File(k1, 600, nameOf(k1))]
      && PutSpec(s1, {}, 1000, nameOf, k2, d2).0 == NilDereference
  {
    PutFits(State([], map[]), {}, 1000, nameOf, k1, d1);
    var s1 := PutSpec(State([], map[]), {}, 1000, nameOf, k1, d1).1;
    assert s1.files[..0] == [];
  }
}
