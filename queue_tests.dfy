/** The scenarios of the queue's tests, on the eight image files the tests use:
    pushing them all, rotating the queue by moving its back to the front, and
    removing its front and its back. */
module QueueTests {
  import opened QueueList
  import opened CacheQueue

  /** The test files, in the order they are pushed. */
  function TestFiles(): seq<File>
  {
    [ File("../../examples/_gopher_original_1024x504.jpg", 64212, "_gopher_original_1024x504"),
      File("../../examples/gopher_50x50.jpg", 1956, "gopher_50x50"),
      File("../../examples/gopher_200x700.jpg", 30146, "gopher_200x700"),
      File("../../examples/gopher_256x126.jpg", 10121, "gopher_256x126"),
      File("../../examples/gopher_333x666.jpg", 41562, "gopher_333x666"),
      File("../../examples/gopher_500x500.jpg", 47656, "gopher_500x500"),
      File("../../examples/gopher_1024x252.jpg", 41771, "gopher_1024x252"),
      File("../../examples/gopher_2000x1000.jpg", 226943, "gopher_2000x1000") ]
  }

  function Reversed(fs: seq<File>): (r: seq<File>)
    ensures |r| == |fs|
    ensures forall k :: 0 <= k < |fs| ==> r[k] == fs[|fs| - 1 - k]
  {
    if fs == [] then [] else [fs[|fs| - 1]] + Reversed(fs[..|fs| - 1])
  }

  /** The sequence turned `n` times by moving its last element to the front. */
  function Rotated(fs: seq<File>, n: nat): seq<File>
    requires n <= |fs|
  {
    fs[|fs| - n..] + fs[..|fs| - n]
  }

  lemma {:induction false} SumReversed(fs: seq<File>)
    ensures Sum(Reversed(fs)) == Sum(fs)
  {
    if fs != [] {
      var n := |fs| - 1;
      SumReversed(fs[..n]);
      SumCons(fs[n], Reversed(fs[..n]));
      SumPrefix(fs, n);
      assert fs[..n + 1] == fs;
    }
  }

  /** Pushing files one after the other into a new queue links them in the reverse
      order, all their sizes counted. */
  method PushAll(fs: seq<File>) returns (q: Queue)
    requires forall i :: 0 <= i < |fs| ==> fs[i].size > 0
    ensures fresh(q) && q.Valid()
    ensures q.contents == Reversed(fs) && q.size == Sum(fs)
  {
    q := new Queue();
    for i := 0 to |fs|
      invariant fresh(q) && q.Valid()
      invariant q.contents == Reversed(fs[..i])
    {
      SumZero(q.contents);
      var p := q.PushFront(fs[i]);
      assert fs[..i + 1][..i] == fs[..i];
    }
    assert fs[..|fs|] == fs;
    SumReversed(fs);
  }

  /** "empty queue": a new queue has neither a front nor a back. */
  method EmptyQueue() returns (front: Ptr, back: Ptr)
    ensures front == Nil && back == Nil
  {
    var q := new Queue();
    front := q.GetFront();
    back := q.GetBack();
  }

  /** "push item to empty queue": the one file is both the front and the back. */
  method PushItemToEmptyQueue() returns (q: Queue)
    ensures q.Valid() && q.size == TestFiles()[0].size
    ensures q.front == q.back && q.front.Ref? && q.front.index < |q.items|
    ensures q.items[q.front.index].file == TestFiles()[0]
  {
    q := new Queue();
    var p := q.PushFront(TestFiles()[0]);
  }

  /** "push multiple items": the last file pushed is in front, the first at the
      back, and the size is the total of the eight. */
  method PushMultipleItems() returns (q: Queue)
    ensures q.Valid() && q.size == 464367
    ensures q.contents[0] == TestFiles()[7] && q.contents[|q.contents| - 1] == TestFiles()[0]
    ensures q.contents == Reversed(TestFiles())
  {
    TestFilesSum();
    q := PushAll(TestFiles());
  }

  /** Turning a queue `n` times by moving its back file to the front. */
  method RotateBack(q: Queue, n: nat)
    requires q.Valid() && n <= |q.contents| && q.size > 0
    modifies q
    ensures q.Valid() && q.size == old(q.size)
    ensures q.contents == Rotated(old(q.contents), n)
  {
    ghost var start := q.contents;
    ghost var m := |start|;
    for i := 0 to n
      invariant q.Valid() && q.size == old(q.size)
      invariant |q.contents| == m && q.contents == Rotated(start, i)
    {
      RotateStep(start, i);
      var back := q.GetBack();
      q.MoveToFront(back, m - 1);
    }
  }

  /** One more turn moves the back element to the front. */
  lemma RotateStep(fs: seq<File>, i: nat)
    requires i < |fs|
    ensures var r := Rotated(fs, i);
      [r[|r| - 1]] + Without(r, |r| - 1) == Rotated(fs, i + 1)
  {
    var m, r := |fs|, Rotated(fs, i);
    assert r[m - 1] == fs[m - 1 - i];
    assert Without(r, m - 1) == fs[m - i..] + fs[..m - i - 1];
  }

  /** "move items to front": after `i + 1` turns of the pushed queue the i-th file
      is in front and the next one at the back. */
  lemma RotatedTestFiles(i: nat)
    requires i < 7
    ensures var r := Rotated(Reversed(TestFiles()), i + 1);
      r[0] == TestFiles()[i] && r[7] == TestFiles()[i + 1]
  {
  }

  /** "remove items": removing the front and then the back of the pushed queue
      leaves the six files in between, without their sizes. */
  method RemoveItems() returns (q: Queue)
    ensures q.Valid()
    ensures q.size == 464367 - TestFiles()[7].size - TestFiles()[0].size
    ensures q.contents == Reversed(TestFiles()[1..7])
  {
    TestFilesSum();
    q := PushAll(TestFiles());
    ghost var pushed := q.contents;
    var front := q.GetFront();
    var crashed := q.Remove(front, 0);
    ghost var rest := q.contents;
    var back := q.GetBack();
    crashed := q.Remove(back, 6);
    RemovedEnds(pushed);
  }

  lemma TestFilesSum()
    ensures Sum(TestFiles()) == 464367
  {
    var fs := TestFiles();
    assert SumTo(fs, 2) == 66168;
    assert SumTo(fs, 4) == 106435;
    assert SumTo(fs, 6) == 195653;
    assert SumTo(fs, 8) == 464367;
  }

  /** Dropping the first and then the last of the reversed test files leaves the
      reversal of the six in between. */
  lemma RemovedEnds(pushed: seq<File>)
    requires pushed == Reversed(TestFiles())
    ensures Without(Without(pushed, 0), 6) == Reversed(TestFiles()[1..7])
    ensures pushed[0] == TestFiles()[7] && Without(pushed, 0)[6] == TestFiles()[0]
  {
  }
}
