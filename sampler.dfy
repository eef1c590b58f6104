/**
 * The ImageNet batch sampler of cuda-convnet/imagenetdata.py: ReadImage
 * draws (class, sample) pairs, round-robin in validation mode and at random
 * in training mode, and groups them into numbered batches.
 *
 * Decoding the image file is replaced by returning its path
 * root_path + "/" + images[class][sample]; the label is the class number.
 * Python 2's `/` on integers is floor division, written out as FloorDiv.
 */
module Sampler {
  import opened Wrappers

  /** Python 2 integer division: the floor of a / b. */
  function FloorDiv(a: int, b: int): (q: int)
    requires b != 0
    ensures b > 0 ==> q * b <= a < q * b + b
    ensures b < 0 ==> q * b >= a > q * b + b
  {
    if b > 0 then a / b else (-a) / (-b)
  }

  /** The data_mode argument: only "val" and "train" are accepted. */
  datatype DataMode = Val | Train

  /** data_mode strings; any other string makes the constructor exit. */
  function ParseDataMode(s: string): (m: Option<DataMode>)
    ensures m == Some(Val) <==> s == "val"
    ensures m == Some(Train) <==> s == "train"
    ensures m.None? <==> s != "val" && s != "train"
  {
    if s == "val" then Some(Val) else if s == "train" then Some(Train) else None
  }

  /** The fields of the unpickled data file that the sampler reads. */
  datatype DataFile = DataFile(
    val: seq<seq<string>>,
    train: seq<seq<string>>,
    numDataVal: int,
    numDataTrain: int)

  // ---------------------------------------------------------------------------
  // the validation cursor

  /** iclass and the per-class cursors isamples. */
  datatype Cursor = Cursor(iclass: int, isamples: seq<int>)

  /** The cursor fits classes of the given (non-empty) sizes; -1 means "before the first". */
  predicate CursorOk(c: Cursor, sizes: seq<nat>)
  {
    |sizes| > 0 && |c.isamples| == |sizes| && -1 <= c.iclass < |sizes| &&
    forall k :: 0 <= k < |sizes| ==> sizes[k] > 0 && -1 <= c.isamples[k] < sizes[k]
  }

  /** One validation draw: the next class, and the next sample of that class. */
  function ValStep(c: Cursor, sizes: seq<nat>): (d: Cursor)
    requires CursorOk(c, sizes)
    ensures CursorOk(d, sizes)
    ensures 0 <= d.iclass && d.iclass == (c.iclass + 1) % |sizes|
    ensures d.isamples[d.iclass] == (c.isamples[d.iclass] + 1) % sizes[d.iclass]
    ensures forall k :: 0 <= k < |sizes| && k != d.iclass ==> d.isamples[k] == c.isamples[k]
  {
    var ic := if c.iclass + 1 == |sizes| then 0 else c.iclass + 1;
    var cur := if c.isamples[ic] + 1 == sizes[ic] then 0 else c.isamples[ic] + 1;
    WrapAround(c.iclass + 1, |sizes|);
    WrapAround(c.isamples[ic] + 1, sizes[ic]);
    Cursor(ic, c.isamples[ic := cur])
  }

  /** The cursor after k validation draws. */
  function ValIter(c: Cursor, sizes: seq<nat>, k: nat): (d: Cursor)
    requires CursorOk(c, sizes)
    ensures CursorOk(d, sizes)
  {
    if k == 0 then c else ValStep(ValIter(c, sizes, k - 1), sizes)
  }

  /** Stepping x - 1 < n up by one wraps to 0 exactly at n. */
  lemma WrapAround(x: int, n: int)
    requires 0 <= x <= n && n > 0
    ensures x % n == if x == n then 0 else x
  {
    if x == n {
      ModOfSelf(n);
    } else {
      ModOfSmall(x, n);
    }
  }

  /** Validation draws visit the classes in turn: 0, 1, ..., n - 1, 0, ... */
  lemma {:induction false} ValClassesRoundRobin(c: Cursor, sizes: seq<nat>, k: nat)
    requires CursorOk(c, sizes) && k > 0
    ensures ValIter(c, sizes, k).iclass == (c.iclass + k) % |sizes|
  {
    if k > 1 {
      ValClassesRoundRobin(c, sizes, k - 1);
      var n := |sizes|;
      var a := c.iclass + k - 1;
      assert (a % n + 1) % n == (a + 1) % n by {
        ModSucc(a, n);
      }
    }
  }

  /** (a mod n + 1) mod n == (a + 1) mod n. */
  lemma ModSucc(a: int, n: int)
    requires n > 0
    ensures (a % n + 1) % n == (a + 1) % n
  {
    var q, r := a / n, a % n;
    assert a == q * n + r;
    if r + 1 < n {
      ModOfSmall(r + 1, n);
      DivModUnique(a + 1, n, q, r + 1);
    } else {
      ModOfSelf(n);
      assert (q + 1) * n == q * n + n;
      DivModUnique(a + 1, n, q + 1, 0);
    }
  }

  /** Quotient and remainder are unique. */
  lemma DivModUnique(a: int, n: int, q: int, r: int)
    requires n > 0 && 0 <= r < n && a == q * n + r
    ensures a % n == r && a / n == q
  {
    var q0, r0 := a / n, a % n;
    var e := q0 - q;
    assert e * n == q0 * n - q * n;
    assert e * n == r - r0;
    if e > 0 {
      MulAtLeast(e, n);
    } else if e < 0 {
      MulAtLeast(-e, n);
    }
  }

  /** A positive multiple of n is at least n. */
  lemma {:induction false} MulAtLeast(e: int, n: int)
    requires e >= 1 && n > 0
    ensures e * n >= n
  {
    if e > 1 {
      MulAtLeast(e - 1, n);
      assert e * n == (e - 1) * n + n;
    }
  }

  /** A value in [0, n) is its own remainder. */
  lemma ModOfSmall(x: int, n: int)
    requires 0 <= x < n
    ensures x % n == x
  {
    DivModUnique(x, n, 0, x);
  }

  /** n leaves remainder 0. */
  lemma ModOfSelf(n: int)
    requires n > 0
    ensures n % n == 0
  {
    DivModUnique(n, n, 1, 0);
  }

  /** A cursor that has not drawn yet: every position is -1. */
  function FreshCursor(n: nat): (c: Cursor)
    ensures |c.isamples| == n && c.iclass == -1
    ensures forall k :: 0 <= k < n ==> c.isamples[k] == -1
  {
    Cursor(-1, seq(n, _ => -1))
  }

  // ---------------------------------------------------------------------------
  // the batch counters

  /**
   * The (epoch, batch) numbers produceData reports: the epoch is derived from
   * the samples drawn before this batch; when it changes the batch number
   * restarts, and it is then incremented once.
   */
  function BatchCounters(totalProcessed: int, totalSamples: int, epoch: int, batch: int): (r: (int, int))
    requires totalSamples != 0
    ensures r.0 == 1 + FloorDiv(totalProcessed, totalSamples)
    ensures r.0 != epoch ==> r.1 == 1
    ensures r.0 == epoch ==> r.1 == batch + 1
  {
    var e := 1 + FloorDiv(totalProcessed, totalSamples);
    (e, (if e != epoch then 0 else batch) + 1)
  }

  /**
   * Resuming: total_processed always starts at 0, so the first batch is in
   * epoch 1. A start epoch other than 1 is overwritten (batch 1), while a start
   * batch in epoch 1 is continued.
   */
  lemma ResumeQuirk(totalSamples: int, epoch: int, batch: int)
    requires totalSamples > 0
    ensures BatchCounters(0, totalSamples, epoch, batch) == (1, if epoch != 1 then 1 else batch + 1)
  {
  }

  /**
   * With at least one sample per batch, the batch numbers within an epoch are
   * 1, 2, 3, ...: the first batch whose pre-batch count reaches a new epoch is
   * numbered 1, and every other batch is one more than the one before.
   */
  lemma {:induction false} BatchNumbering(totalSamples: int, batchSize: nat, epoch: int, batch: int, t: nat)
    requires totalSamples > 0 && batchSize > 0
    requires epoch == 1 + FloorDiv(t, totalSamples)
    ensures var (e, b) := BatchCounters(t + batchSize, totalSamples, epoch, batch);
      e >= epoch && (e == epoch ==> b == batch + 1) && (e > epoch ==> b == 1)
  {
    var e := 1 + FloorDiv(t + batchSize, totalSamples);
    var q, q' := FloorDiv(t, totalSamples), FloorDiv(t + batchSize, totalSamples);
    if q' < q {
      assert q' * totalSamples <= (q - 1) * totalSamples;
    }
  }

  /** What one produceData with batch_size 1 reports in validation mode. */
  datatype Drawn = Drawn(epoch: int, batch: int, cls: int, sample: int)

  /**
   * k successive produceData calls with batch_size 1 in validation mode,
   * starting from cursor c, t samples drawn and counters (epoch, batch).
   */
  function ValRun(c: Cursor, sizes: seq<nat>, t: nat, totalSamples: int, epoch: int, batch: int, k: nat): (r: seq<Drawn>)
    requires CursorOk(c, sizes) && totalSamples != 0
    ensures |r| == k
    decreases k
  {
    if k == 0 then []
    else
      var (e, b) := BatchCounters(t, totalSamples, epoch, batch);
      var d := ValStep(c, sizes);
      [Drawn(e, b, d.iclass, d.isamples[d.iclass])] + ValRun(d, sizes, t + 1, totalSamples, e, b, k - 1)
  }

  /**
   * Classes of sizes 3 (A) and 2 (B), 5 validation samples, batch_size 1,
   * starting at epoch 1, batch 0. The first epoch draws A0 B0 A1 B1 A2 in
   * batches 1 to 5. The second epoch starts again with batch 1, but the
   * cursors carry on instead of restarting: it draws B0 A0 B1 A1 B0, so B0
   * is drawn twice and A2 not at all.
   */
  lemma TwoClassExample(sizes: seq<nat>)
    requires sizes == [3, 2]
    ensures ValRun(Cursor(-1, [-1, -1]), sizes, 0, 5, 1, 0, 10) ==
      [Drawn(1, 1, 0, 0), Drawn(1, 2, 1, 0), Drawn(1, 3, 0, 1), Drawn(1, 4, 1, 1), Drawn(1, 5, 0, 2),
       Drawn(2, 1, 1, 0), Drawn(2, 2, 0, 0), Drawn(2, 3, 1, 1), Drawn(2, 4, 0, 1), Drawn(2, 5, 1, 0)]
  {
    assert [Drawn(2, 4, 0, 1), Drawn(2, 5, 1, 0)] + [] == [Drawn(2, 4, 0, 1), Drawn(2, 5, 1, 0)];
    assert [Drawn(2, 2, 0, 0), Drawn(2, 3, 1, 1)] + [Drawn(2, 4, 0, 1), Drawn(2, 5, 1, 0)] == [Drawn(2, 2, 0, 0), Drawn(2, 3, 1, 1), Drawn(2, 4, 0, 1), Drawn(2, 5, 1, 0)];
    assert [Drawn(1, 5, 0, 2), Drawn(2, 1, 1, 0)] + [Drawn(2, 2, 0, 0), Drawn(2, 3, 1, 1), Drawn(2, 4, 0, 1), Drawn(2, 5, 1, 0)] == [Drawn(1, 5, 0, 2), Drawn(2, 1, 1, 0), Drawn(2, 2, 0, 0), Drawn(2, 3, 1, 1), Drawn(2, 4, 0, 1), Drawn(2, 5, 1, 0)];
    assert [Drawn(1, 3, 0, 1), Drawn(1, 4, 1, 1)] + [Drawn(1, 5, 0, 2), Drawn(2, 1, 1, 0), Drawn(2, 2, 0, 0), Drawn(2, 3, 1, 1), Drawn(2, 4, 0, 1), Drawn(2, 5, 1, 0)] == [Drawn(1, 3, 0, 1), Drawn(1, 4, 1, 1), Drawn(1, 5, 0, 2), Drawn(2, 1, 1, 0), Drawn(2, 2, 0, 0), Drawn(2, 3, 1, 1), Drawn(2, 4, 0, 1), Drawn(2, 5, 1, 0)];
    assert [Drawn(1, 1, 0, 0), Drawn(1, 2, 1, 0)] + [Drawn(1, 3, 0, 1), Drawn(1, 4, 1, 1), Drawn(1, 5, 0, 2), Drawn(2, 1, 1, 0), Drawn(2, 2, 0, 0), Drawn(2, 3, 1, 1), Drawn(2, 4, 0, 1), Drawn(2, 5, 1, 0)] == [Drawn(1, 1, 0, 0), Drawn(1, 2, 1, 0), Drawn(1, 3, 0, 1), Drawn(1, 4, 1, 1), Drawn(1, 5, 0, 2), Drawn(2, 1, 1, 0), Drawn(2, 2, 0, 0), Drawn(2, 3, 1, 1), Drawn(2, 4, 0, 1), Drawn(2, 5, 1, 0)];
    assert ValRun(Cursor(1, [1, 0]), sizes, 10, 5, 2, 5, 0) == [];
    ExampleDraws9to10(sizes, 0);
    ExampleDraws7to8(sizes, 2);
    ExampleDraws5to6(sizes, 4);
    ExampleDraws3to4(sizes, 6);
    ExampleDraws1to2(sizes, 8);
  }

  /** Draws 1 and 2 of the example: A0, B0. */
  lemma ExampleDraws1to2(sizes: seq<nat>, n: nat)
    requires sizes == [3, 2]
    ensures ValRun(Cursor(-1, [-1, -1]), sizes, 0, 5, 1, 0, n + 2) ==
      [Drawn(1, 1, 0, 0), Drawn(1, 2, 1, 0)] + ValRun(Cursor(1, [0, 0]), sizes, 2, 5, 1, 2, n)
  {
    assert ValStep(Cursor(-1, [-1, -1]), sizes) == Cursor(0, [0, -1]);
    assert BatchCounters(0, 5, 1, 0) == (1, 1);
    assert ValStep(Cursor(0, [0, -1]), sizes) == Cursor(1, [0, 0]);
    assert BatchCounters(1, 5, 1, 1) == (1, 2);
  }

  /** Draws 3 and 4 of the example: A1, B1. */
  lemma ExampleDraws3to4(sizes: seq<nat>, n: nat)
    requires sizes == [3, 2]
    ensures ValRun(Cursor(1, [0, 0]), sizes, 2, 5, 1, 2, n + 2) ==
      [Drawn(1, 3, 0, 1), Drawn(1, 4, 1, 1)] + ValRun(Cursor(1, [1, 1]), sizes, 4, 5, 1, 4, n)
  {
    assert ValStep(Cursor(1, [0, 0]), sizes) == Cursor(0, [1, 0]);
    assert BatchCounters(2, 5, 1, 2) == (1, 3);
    assert ValStep(Cursor(0, [1, 0]), sizes) == Cursor(1, [1, 1]);
    assert BatchCounters(3, 5, 1, 3) == (1, 4);
  }

  /** Draws 5 and 6 of the example: A2 ends epoch 1, B0 is batch 1 of epoch 2. */
  lemma ExampleDraws5to6(sizes: seq<nat>, n: nat)
    requires sizes == [3, 2]
    ensures ValRun(Cursor(1, [1, 1]), sizes, 4, 5, 1, 4, n + 2) ==
      [Drawn(1, 5, 0, 2), Drawn(2, 1, 1, 0)] + ValRun(Cursor(1, [2, 0]), sizes, 6, 5, 2, 1, n)
  {
    assert ValStep(Cursor(1, [1, 1]), sizes) == Cursor(0, [2, 1]);
    assert BatchCounters(4, 5, 1, 4) == (1, 5);
    assert ValStep(Cursor(0, [2, 1]), sizes) == Cursor(1, [2, 0]);
    assert BatchCounters(5, 5, 1, 5) == (2, 1);
  }

  /** Draws 7 and 8 of the example: A0, B1. */
  lemma ExampleDraws7to8(sizes: seq<nat>, n: nat)
    requires sizes == [3, 2]
    ensures ValRun(Cursor(1, [2, 0]), sizes, 6, 5, 2, 1, n + 2) ==
      [Drawn(2, 2, 0, 0), Drawn(2, 3, 1, 1)] + ValRun(Cursor(1, [0, 1]), sizes, 8, 5, 2, 3, n)
  {
    assert ValStep(Cursor(1, [2, 0]), sizes) == Cursor(0, [0, 0]);
    assert BatchCounters(6, 5, 2, 1) == (2, 2);
    assert ValStep(Cursor(0, [0, 0]), sizes) == Cursor(1, [0, 1]);
    assert BatchCounters(7, 5, 2, 2) == (2, 3);
  }

  /** Draws 9 and 10 of the example: A1, B0. */
  lemma ExampleDraws9to10(sizes: seq<nat>, n: nat)
    requires sizes == [3, 2]
    ensures ValRun(Cursor(1, [0, 1]), sizes, 8, 5, 2, 3, n + 2) ==
      [Drawn(2, 4, 0, 1), Drawn(2, 5, 1, 0)] + ValRun(Cursor(1, [1, 0]), sizes, 10, 5, 2, 5, n)
  {
    assert ValStep(Cursor(1, [0, 1]), sizes) == Cursor(0, [1, 1]);
    assert BatchCounters(8, 5, 2, 3) == (2, 4);
    assert ValStep(Cursor(0, [1, 1]), sizes) == Cursor(1, [1, 0]);
    assert BatchCounters(9, 5, 2, 4) == (2, 5);
  }

  // ---------------------------------------------------------------------------
  // get_num_batches

  /**
   * get_num_batches as written: ceil is applied to the result of Python 2
   * integer division, so it rounds down.
   */
  function NumBatchesAsWritten(totalSamples: int, batchSize: int): (k: int)
    requires batchSize > 0
    ensures k * batchSize <= totalSamples < k * batchSize + batchSize
  {
    FloorDiv(totalSamples, batchSize)
  }

  /** The number of batches the ceiling was meant to give: the fewest that cover every sample. */
  function NumBatches(totalSamples: int, batchSize: int): (k: int)
    requires batchSize > 0
    ensures k * batchSize >= totalSamples > (k - 1) * batchSize
  {
    -FloorDiv(-totalSamples, batchSize)
  }

  /** 5 samples in batches of 2 need 3 batches; get_num_batches reports 2. */
  lemma NumBatchesRoundsDown()
    ensures NumBatchesAsWritten(5, 2) == 2
    ensures NumBatches(5, 2) == 3
  {
  }

  /** The two agree exactly when the batch size divides the sample count. */
  lemma NumBatchesAgreeOnMultiples(totalSamples: int, batchSize: int)
    requires batchSize > 0
    ensures NumBatchesAsWritten(totalSamples, batchSize) == NumBatches(totalSamples, batchSize)
      <==> totalSamples % batchSize == 0
  {
    var q := NumBatchesAsWritten(totalSamples, batchSize);
    var k := NumBatches(totalSamples, batchSize);
    DivModUnique(totalSamples, batchSize, q, totalSamples - q * batchSize);
    if totalSamples == q * batchSize {
      MulLess(k - 1, q, batchSize);
      MulLess(q - 1, k, batchSize);
      assert (q - 1) * batchSize == q * batchSize - batchSize;
    } else {
      MulLess(q, k, batchSize);
    }
  }

  /** Multiplying by a positive b keeps strict order, so the order of products gives the order of factors. */
  lemma MulLess(x: int, y: int, b: int)
    requires b > 0 && x * b < y * b
    ensures x < y
  {
    assert (x - y) * b == x * b - y * b < 0;
  }

  // ---------------------------------------------------------------------------
  // ReadImage

  class ReadImage {
    /** self.images: the class lists of the chosen mode. */
    const images: seq<seq<string>>
    /** len(data['val']), in either mode. */
    const numClasses: nat
    const shuffle: bool
    const totalSamples: int
    const batchSize: nat
    const rootPath: string

    var iclass: int
    var isamples: seq<int>
    var totalProcessed: nat
    var batchIndex: int
    var epochIndex: int

    /** The class sizes the cursors range over. */
    function Sizes(): (sizes: seq<nat>)
      requires numClasses <= |images|
      ensures |sizes| == numClasses
      ensures forall k :: 0 <= k < numClasses ==> sizes[k] == |images[k]|
    {
      seq(numClasses, k requires 0 <= k < numClasses && numClasses <= |images| => |images[k]|)
    }

    function Cur(): (c: Cursor)
      reads this
    {
      Cursor(iclass, isamples)
    }

    /**
     * Every draw can be looked up: there is at least one class, each of the
     * first num_classes lists is non-empty, and the cursors are in range.
     */
    ghost predicate Valid()
      reads this
    {
      numClasses <= |images| && CursorOk(Cur(), Sizes())
    }

    /** The path of the image the cursor points at. */
    function PathAt(c: Cursor): (p: string)
      requires numClasses <= |images| && CursorOk(c, Sizes()) && c.iclass >= 0 && c.isamples[c.iclass] >= 0
    {
      rootPath + "/" + images[c.iclass][c.isamples[c.iclass]]
    }

    /** path is root_path + "/" + one of the images of class c. */
    predicate InClass(path: string, c: int)
    {
      0 <= c < |images| && exists i :: 0 <= i < |images[c]| && path == rootPath + "/" + images[c][i]
    }

    /**
     * ReadImage(data, root_path, data_mode, batch_size, batch_index,
     * epoch_index): choose the lists of the mode; no draw has happened yet.
     */
    constructor (data: DataFile, rootPath: string, mode: DataMode, batchSize: nat, batchIndex: int, epochIndex: int)
      requires |data.val| > 0
      requires mode == Train ==> |data.val| <= |data.train|
      requires mode == Val ==> forall k :: 0 <= k < |data.val| ==> |data.val[k]| > 0
      requires mode == Train ==> forall k :: 0 <= k < |data.val| ==> |data.train[k]| > 0
      ensures Valid()
      ensures images == (if mode == Val then data.val else data.train) && numClasses == |data.val|
      ensures shuffle == (mode == Train)
      ensures totalSamples == (if mode == Val then data.numDataVal else data.numDataTrain)
      ensures this.batchSize == batchSize && this.rootPath == rootPath
      ensures Cur() == FreshCursor(numClasses) && totalProcessed == 0
      ensures this.batchIndex == batchIndex && this.epochIndex == epochIndex
    {
      this.numClasses := |data.val|;
      this.rootPath := rootPath;
      if mode == Val {
        this.images := data.val;
        this.totalSamples := data.numDataVal;
        this.shuffle := false;
      } else {
        this.images := data.train;
        this.totalSamples := data.numDataTrain;
        this.shuffle := true;
      }
      this.iclass := -1;
      this.isamples := seq(|data.val|, _ => -1);
      this.totalProcessed := 0;
      this.batchSize := batchSize;
      this.batchIndex := batchIndex;
      this.epochIndex := epochIndex;
    }

    /**
     * next(): draw one (class, sample). Validation mode steps the round robin;
     * training mode picks a class and a sample of it at random. The image at
     * the drawn position and the class are returned.
     */
    method Next() returns (path: string, cls: nat)
      requires Valid()
      modifies this
      ensures Valid()
      ensures !shuffle ==> Cur() == ValStep(old(Cur()), Sizes())
      ensures shuffle ==> 0 <= iclass < numClasses && 0 <= isamples[iclass] < |images[iclass]|
      ensures shuffle ==> forall k :: 0 <= k < numClasses && k != iclass ==> isamples[k] == old(isamples)[k]
      ensures iclass >= 0 && isamples[iclass] >= 0
      ensures cls == iclass && path == PathAt(Cur())
      ensures totalProcessed == old(totalProcessed) + 1
      ensures batchIndex == old(batchIndex) && epochIndex == old(epochIndex)
    {
      if shuffle {
        var c :| 0 <= c < numClasses;
        var i :| 0 <= i < |images[c]|;
        iclass := c;
        isamples := isamples[c := i];
      } else {
        ghost var c0 := Cur();
        iclass := iclass + 1;
        if iclass == numClasses {
          iclass := 0;
        }
        isamples := isamples[iclass := isamples[iclass] + 1];
        if isamples[iclass] == |images[iclass]| {
          isamples := isamples[iclass := 0];
        }
        assert Cur() == ValStep(c0, Sizes());
      }
      totalProcessed := totalProcessed + 1;
      path := rootPath + "/" + images[iclass][isamples[iclass]];
      cls := iclass;
    }

    /**
     * produceData(): renumber the epoch from the samples drawn so far, draw
     * batch_size images, and count one more batch.
     */
    method ProduceData() returns (epoch: int, batch: int, paths: seq<string>, labels: seq<nat>)
      requires Valid() && totalSamples != 0
      modifies this
      ensures Valid()
      ensures (epoch, batch) == BatchCounters(old(totalProcessed), totalSamples, old(epochIndex), old(batchIndex))
      ensures epochIndex == epoch && batchIndex == batch
      ensures |paths| == batchSize && |labels| == batchSize
      ensures totalProcessed == old(totalProcessed) + batchSize
      ensures forall j :: 0 <= j < batchSize ==> labels[j] < numClasses && InClass(paths[j], labels[j])
      ensures !shuffle ==> Cur() == ValIter(old(Cur()), Sizes(), batchSize)
      ensures !shuffle ==> forall j :: 0 <= j < batchSize ==>
        labels[j] == ValIter(old(Cur()), Sizes(), j + 1).iclass &&
        paths[j] == PathAt(ValIter(old(Cur()), Sizes(), j + 1))
    {
      ghost var c0 := Cur();
      ghost var counters := BatchCounters(totalProcessed, totalSamples, epochIndex, batchIndex);
      var epoch2 := 1 + FloorDiv(totalProcessed, totalSamples);
      if epoch2 != epochIndex {
        epochIndex := epoch2;
        batchIndex := 0;
      }
      paths, labels := [], [];
      for i := 0 to batchSize
        invariant Valid()
        invariant |paths| == i && |labels| == i
        invariant totalProcessed == old(totalProcessed) + i
        invariant epochIndex == counters.0 && batchIndex + 1 == counters.1
        invariant !shuffle ==> Cur() == ValIter(c0, Sizes(), i)
        invariant BatchDrawn(c0, paths, labels)
      {
        var p, l := Next();
        assert p == rootPath + "/" + images[l][isamples[l]];
        BatchDrawnAppend(c0, paths, labels, p, l);
        paths := paths + [p];
        labels := labels + [l];
      }
      batchIndex := batchIndex + 1;
      epoch, batch := epochIndex, batchIndex;
    }

    /**
     * The draws of a batch so far: each label is a class and each path an
     * image of it; in validation mode the j-th is the round-robin position
     * j + 1 steps after c0.
     */
    ghost predicate BatchDrawn(c0: Cursor, paths: seq<string>, labels: seq<nat>)
      requires numClasses <= |images| && CursorOk(c0, Sizes())
    {
      |paths| == |labels| &&
      (forall j :: 0 <= j < |labels| ==> labels[j] < numClasses && InClass(paths[j], labels[j])) &&
      (!shuffle ==> forall j :: 0 <= j < |labels| ==>
        labels[j] == ValIter(c0, Sizes(), j + 1).iclass && paths[j] == PathAt(ValIter(c0, Sizes(), j + 1)))
    }

    /** One more draw of class l with path p keeps BatchDrawn. */
    lemma BatchDrawnAppend(c0: Cursor, paths: seq<string>, labels: seq<nat>, p: string, l: nat)
      requires numClasses <= |images| && CursorOk(c0, Sizes())
      requires BatchDrawn(c0, paths, labels)
      requires l < numClasses && 0 <= l < |images|
      requires exists i :: 0 <= i < |images[l]| && p == rootPath + "/" + images[l][i]
      requires !shuffle ==> l == ValIter(c0, Sizes(), |labels| + 1).iclass && p == PathAt(ValIter(c0, Sizes(), |labels| + 1))
      ensures BatchDrawn(c0, paths + [p], labels + [l])
    {
      assert InClass(p, l);
      var n := |labels|;
      assert (paths + [p])[n] == p && (labels + [l])[n] == l;
    }

    /** The draws of k more produceData calls with batch_size 1 in validation mode. */
    ghost function RunFrom(k: nat): seq<Drawn>
      reads this
      requires Valid() && totalSamples != 0
    {
      ValRun(Cur(), Sizes(), totalProcessed, totalSamples, epochIndex, batchIndex, k)
    }

    /**
     * get_num_batches(): the number of batches of batch_size that cover the
     * total_samples of the mode, that is the ceiling the source means to take.
     */
    function GetNumBatches(): (k: int)
      requires batchSize > 0
      ensures k * batchSize >= totalSamples > (k - 1) * batchSize
    {
      NumBatches(totalSamples, batchSize)
    }
  }
  // ---------------------------------------------------------------------------
  // the two-class example on a reader

  /** One produceData with batch_size 1 in validation mode, as a Drawn and its path. */
  method DrawOne(r: ReadImage, ghost k: nat) returns (d: Drawn, path: string)
    requires r.Valid() && r.totalSamples != 0 && r.batchSize == 1 && !r.shuffle
    modifies r
    ensures r.Valid()
    ensures r.Cur() == ValStep(old(r.Cur()), r.Sizes())
    ensures (d.epoch, d.batch) == BatchCounters(old(r.totalProcessed), r.totalSamples, old(r.epochIndex), old(r.batchIndex))
    ensures d.cls == r.iclass && d.sample == r.isamples[r.iclass]
    ensures r.epochIndex == d.epoch && r.batchIndex == d.batch
    ensures r.totalProcessed == old(r.totalProcessed) + 1
    ensures path == r.PathAt(r.Cur())
    ensures old(r.RunFrom(k + 1)) == [d] + r.RunFrom(k)
    ensures PathsOf(r.rootPath, r.images, [d], [path])
  {
    var epoch, batch, paths, labels := r.ProduceData();
    d := Drawn(epoch, batch, r.iclass, r.isamples[r.iclass]);
    path := paths[0];
  }

  /** Each path is root + "/" + the image at the drawn class and sample. */
  predicate PathsOf(root: string, images: seq<seq<string>>, draws: seq<Drawn>, paths: seq<string>)
  {
    |paths| == |draws| &&
    forall j :: 0 <= j < |draws| ==>
      0 <= draws[j].cls < |images| && 0 <= draws[j].sample < |images[draws[j].cls]| &&
      paths[j] == root + "/" + images[draws[j].cls][draws[j].sample]
  }

  lemma PathsOfAppend(root: string, images: seq<seq<string>>, draws: seq<Drawn>, paths: seq<string>, d: Drawn, p: string)
    requires PathsOf(root, images, draws, paths) && PathsOf(root, images, [d], [p])
    ensures PathsOf(root, images, draws + [d], paths + [p])
  {
    assert (draws + [d])[|draws|] == d && (paths + [p])[|paths|] == p;
  }

  /**
   * k produceData calls with batch_size 1 in validation mode draw what ValRun
   * says, from the reader's cursor and counters; each path is the image at
   * the drawn class and sample.
   */
  method ProduceRun(r: ReadImage, k: nat) returns (draws: seq<Drawn>, paths: seq<string>)
    requires r.Valid() && r.totalSamples != 0 && r.batchSize == 1 && !r.shuffle
    modifies r
    ensures r.Valid()
    ensures draws == old(r.RunFrom(k))
    ensures |paths| == k && PathsOf(r.rootPath, r.images, draws, paths)
  {
    ghost var run := r.RunFrom(k);
    draws, paths := [], [];
    for i := 0 to k
      invariant r.Valid() && |draws| == i && |paths| == i
      invariant draws + r.RunFrom(k - i) == run
      invariant PathsOf(r.rootPath, r.images, draws, paths)
    {
      var d, p := DrawOne(r, k - i - 1);
      PathsOfAppend(r.rootPath, r.images, draws, paths, d, p);
      draws, paths := draws + [d], paths + [p];
    }
  }

  /**
   * TwoClassExample on a reader: validation lists a0 a1 a2 and b0 b1 under
   * root "r", 5 validation samples, batch_size 1, batch_index 0 and
   * epoch_index 1, and ten produceData calls. The second epoch draws b0
   * twice and never a2.
   */
  method TwoClassReader() returns (draws: seq<Drawn>, paths: seq<string>)
    ensures draws ==
      [Drawn(1, 1, 0, 0), Drawn(1, 2, 1, 0), Drawn(1, 3, 0, 1), Drawn(1, 4, 1, 1), Drawn(1, 5, 0, 2),
       Drawn(2, 1, 1, 0), Drawn(2, 2, 0, 0), Drawn(2, 3, 1, 1), Drawn(2, 4, 0, 1), Drawn(2, 5, 1, 0)]
    ensures paths == ["r/a0", "r/b0", "r/a1", "r/b1", "r/a2", "r/b0", "r/a0", "r/b1", "r/a1", "r/b0"]
  {
    var data := DataFile([["a0", "a1", "a2"], ["b0", "b1"]], [], 5, 0);
    var r := new ReadImage(data, "r", Val, 1, 0, 1);
    assert r.Sizes() == [3, 2];
    assert r.Cur() == Cursor(-1, [-1, -1]);
    draws, paths := ProduceRun(r, 10);
    TwoClassExample([3, 2]);
    ExamplePaths(draws, paths);
  }

  /** The paths of the example's draws. */
  lemma ExamplePaths(draws: seq<Drawn>, paths: seq<string>)
    requires draws ==
      [Drawn(1, 1, 0, 0), Drawn(1, 2, 1, 0), Drawn(1, 3, 0, 1), Drawn(1, 4, 1, 1), Drawn(1, 5, 0, 2),
       Drawn(2, 1, 1, 0), Drawn(2, 2, 0, 0), Drawn(2, 3, 1, 1), Drawn(2, 4, 0, 1), Drawn(2, 5, 1, 0)]
    requires PathsOf("r", [["a0", "a1", "a2"], ["b0", "b1"]], draws, paths)
    ensures paths == ["r/a0", "r/b0", "r/a1", "r/b1", "r/a2", "r/b0", "r/a0", "r/b1", "r/a1", "r/b0"]
  {
    var a0, a1, a2, b0, b1 := "r/a0", "r/a1", "r/a2", "r/b0", "r/b1";
    assert paths[0] == a0 && paths[1] == b0 && paths[2] == a1 && paths[3] == b1 && paths[4] == a2;
    assert paths[5] == b0 && paths[6] == a0 && paths[7] == b1 && paths[8] == a1 && paths[9] == b0;
  }
}
