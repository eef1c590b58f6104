/**
 * The image side of cuda-convnet/imagenetdata.py: PIL2array, clean_queue,
 * ProcessImage.process_image and ImagenetDataProvider.get_data_dims.
 *
 * A numpy array of three axes is an Array3: its shape (w, h, a) and its
 * values px[i][j][k]. process_image calls the first axis w and the second h
 * (for a PIL image they are really its rows and its columns); the model keeps
 * its names. Pixels are integers: the float32 conversion and the mean
 * subtraction are not modelled, so a column of the result holds the cropped
 * pixels themselves.
 */
module ImageTransform {
  import opened Wrappers
  import Sampler

  /** A numpy array of shape (w, h, a). */
  datatype Array3 = Array3(w: nat, h: nat, a: nat, px: seq<seq<seq<int>>>)

  /** The values really have the shape the array claims. */
  predicate Shaped(m: Array3)
  {
    |m.px| == m.w &&
    (forall i :: 0 <= i < m.w ==> |m.px[i]| == m.h) &&
    (forall i, j :: 0 <= i < m.w && 0 <= j < m.h ==> |m.px[i][j]| == m.a)
  }

  // ---------------------------------------------------------------------------
  // PIL2array and clean_queue

  /** A decoded PIL image: mode 'L' is one grey value per pixel, any other mode an array as it is. */
  datatype PilImage = Grey(rows: nat, cols: nat, g: seq<seq<int>>) | Other(arr: Array3)

  predicate GreyShaped(img: PilImage)
  {
    img.Grey? ==> |img.g| == img.rows && forall i :: 0 <= i < img.rows ==> |img.g[i]| == img.cols
  }

  /**
   * PIL2array: a grey image becomes rows x cols x 3 with the grey value in
   * all three channels; any other image is returned as its own array.
   */
  function Pil2Array(img: PilImage): (r: Array3)
    requires GreyShaped(img)
    ensures img.Grey? ==> Shaped(r) && r.w == img.rows && r.h == img.cols && r.a == 3
    ensures img.Grey? ==> forall i, j, k :: 0 <= i < r.w && 0 <= j < r.h && 0 <= k < 3 ==> r.px[i][j][k] == img.g[i][j]
    ensures img.Other? ==> r == img.arr
  {
    match img
    case Grey(rows, cols, g) =>
      Array3(rows, cols, 3, seq(rows, i requires 0 <= i < rows =>
        seq(cols, j requires 0 <= j < cols => [g[i][j], g[i][j], g[i][j]])))
    case Other(arr) => arr
  }

  /**
   * clean_queue: one non-blocking get. It takes off at most the one item at
   * the head, however many are queued.
   */
  function CleanQueue<T>(q: seq<T>): (r: seq<T>)
    ensures q == [] ==> r == []
    ensures q != [] ==> |r| == |q| - 1 && q == [q[0]] + r
  {
    if q == [] then [] else q[1..]
  }

  /** A queue holding two items still holds one after clean_queue. */
  lemma CleanQueueLeavesRest<T>(a: T, b: T)
    ensures CleanQueue([a, b]) == [b]
  {
  }

  // ---------------------------------------------------------------------------
  // crop offsets

  /** The fixed crop offset along an axis of length size: half the slack, rounded down. */
  function FixedOffset(size: int, crop: int): (x: int)
    ensures 2 * x <= size - crop < 2 * x + 2
  {
    Sampler.FloorDiv(size - crop, 2)
  }

  /**
   * The assertion after a fixed crop, x + crop < size, holds exactly when the
   * axis is longer than the crop; the offset is then not negative.
   */
  lemma FixedCropAssertion(size: int, crop: int)
    ensures FixedOffset(size, crop) + crop < size <==> size > crop
    ensures size > crop ==> FixedOffset(size, crop) >= 0
  {
  }

  /**
   * random_integers(0, size - crop - 1) can draw only when the axis is longer
   * than the crop, and every value it draws passes the assertion.
   */
  lemma RandomCropAssertion(size: int, crop: int, x: int)
    requires 0 <= x <= size - crop - 1
    ensures size > crop && x + crop < size
  {
  }

  // ---------------------------------------------------------------------------
  // crop, flip, flatten

  /** Python's a[lo:hi] end index on an axis of length n, for 0 <= lo <= hi. */
  function SliceEnd(hi: nat, n: nat): (e: nat)
    ensures e <= n && e <= hi && (e == n || e == hi)
  {
    if hi <= n then hi else n
  }

  /**
   * image[x:x+cw, y:y+extent, :] for an origin inside the array and a crop
   * that fits along the first axis; the second axis is cut short at h.
   */
  function Crop(m: Array3, x: nat, y: nat, cw: nat, extent: nat): (r: Array3)
    requires Shaped(m) && x + cw <= m.w && y <= m.h
    ensures Shaped(r) && r.w == cw && r.a == m.a
    ensures r.h == SliceEnd(y + extent, m.h) - y
  {
    var e := SliceEnd(y + extent, m.h);
    Array3(cw, e - y, m.a, seq(cw, i requires 0 <= i < cw => m.px[x + i][y..e]))
  }

  /** Pixel (i, j) of the crop is pixel (x + i, y + j) of the image. */
  lemma CropAt(m: Array3, x: nat, y: nat, cw: nat, extent: nat, i: nat, j: nat)
    requires Shaped(m) && x + cw <= m.w && y <= m.h
    requires i < cw && j < Crop(m, x, y, cw, extent).h
    ensures Crop(m, x, y, cw, extent).px[i][j] == m.px[x + i][y + j]
  {
  }

  /** s back to front. */
  function Reverse<T>(s: seq<T>): (r: seq<T>)
    ensures |r| == |s| && forall j :: 0 <= j < |s| ==> r[j] == s[|s| - 1 - j]
  {
    seq(|s|, j requires 0 <= j < |s| => s[|s| - 1 - j])
  }

  /** image[:, -1::-1, :]: the second axis reversed. */
  function Mirror(m: Array3): (r: Array3)
    requires Shaped(m)
    ensures Shaped(r) && r.w == m.w && r.h == m.h && r.a == m.a
  {
    Array3(m.w, m.h, m.a, seq(m.w, i requires 0 <= i < m.w => Reverse(m.px[i])))
  }

  /** Pixel (i, j) of the mirrored array is pixel (i, h - 1 - j) of the original. */
  lemma MirrorAt(m: Array3, i: nat, j: nat)
    requires Shaped(m) && i < m.w && j < m.h
    ensures Mirror(m).px[i][j] == m.px[i][m.h - 1 - j]
  {
  }

  /** Mirroring twice gives the array back. */
  lemma MirrorInvolution(m: Array3)
    requires Shaped(m)
    ensures Mirror(Mirror(m)) == m
  {
    var r := Mirror(Mirror(m));
    forall i | 0 <= i < m.w
      ensures r.px[i] == m.px[i]
    {
      ReverseTwice(m.px[i]);
    }
  }

  /** Reversing twice gives the sequence back. */
  lemma ReverseTwice<T>(s: seq<T>)
    ensures Reverse(Reverse(s)) == s
  {
    var r := Reverse(Reverse(s));
    assert forall j :: 0 <= j < |s| ==> r[j] == s[j];
  }

  /** The pieces one after another. */
  function Concat<T>(ss: seq<seq<T>>): (r: seq<T>)
  {
    if ss == [] then [] else ss[0] + Concat(ss[1..])
  }

  /** Pieces of one length n laid end to end make |ss| * n values. */
  lemma {:induction false} ConcatLength<T>(ss: seq<seq<T>>, n: nat)
    requires forall i :: 0 <= i < |ss| ==> |ss[i]| == n
    ensures |Concat(ss)| == |ss| * n
  {
    if ss != [] {
      ConcatLength(ss[1..], n);
      assert |ss| * n == n + (|ss| - 1) * n;
    }
  }

  /** Pieces of one length n laid end to end: value j of piece i is at i * n + j. */
  lemma {:induction false} ConcatIndex<T>(ss: seq<seq<T>>, n: nat, i: nat, j: nat)
    requires forall p :: 0 <= p < |ss| ==> |ss[p]| == n
    requires i < |ss| && j < n
    ensures i * n + j < |Concat(ss)| && Concat(ss)[i * n + j] == ss[i][j]
  {
    ConcatLength(ss, n);
    IndexBound(i, n, j, |ss|);
    if i > 0 {
      ConcatIndex(ss[1..], n, i - 1, j);
      assert i * n + j == n + ((i - 1) * n + j);
    }
  }

  /** Below i < w rows of n and j < n: the offset i * n + j stays below w * n. */
  lemma IndexBound(i: nat, n: nat, j: nat, w: nat)
    requires i < w && j < n
    ensures i * n + j < w * n
  {
    assert w * n == (i + 1) * n + (w - i - 1) * n;
  }

  /** a * b * c, grouped either way. */
  lemma Assoc(a: int, b: int, c: int)
    ensures a * b * c == a * (b * c)
  {
  }

  /** reshape((w * h * a,)): the values in row-major order. */
  function Flatten(m: Array3): (r: seq<int>)
    requires Shaped(m)
  {
    Concat(FlatRows(m))
  }

  /** The rows of m, each flattened. */
  function FlatRows(m: Array3): (rows: seq<seq<int>>)
    requires Shaped(m)
    ensures |rows| == m.w
  {
    seq(m.w, i requires 0 <= i < m.w => Concat(m.px[i]))
  }

  /** The flattened array has w * h * a values. */
  lemma FlattenLength(m: Array3)
    requires Shaped(m)
    ensures |Flatten(m)| == m.w * (m.h * m.a)
  {
    var rows := FlatRows(m);
    forall i | 0 <= i < m.w
      ensures |rows[i]| == m.h * m.a
    {
      ConcatLength(m.px[i], m.a);
    }
    ConcatLength(rows, m.h * m.a);
  }

  /** Value (i, j, k) of m is value i * (h * a) + j * a + k of the flattened array. */
  lemma FlattenAt(m: Array3, i: nat, j: nat, k: nat)
    requires Shaped(m) && i < m.w && j < m.h && k < m.a
    ensures i * (m.h * m.a) + j * m.a + k < |Flatten(m)|
    ensures Flatten(m)[i * (m.h * m.a) + j * m.a + k] == m.px[i][j][k]
  {
    var rows := FlatRows(m);
    forall p | 0 <= p < m.w
      ensures |rows[p]| == m.h * m.a
    {
      ConcatLength(m.px[p], m.a);
    }
    ConcatIndex(m.px[i], m.a, j, k);
    IndexBound(j, m.a, k, m.h);
    ConcatIndex(rows, m.h * m.a, i, j * m.a + k);
  }

  // ---------------------------------------------------------------------------
  // process_image, one image

  /** Why process_image gives up. */
  datatype ProcessError =
    | LabelCountMismatch  // assert len(images) == len(labels)
    | EmptyOffsetRange    // random_integers(0, hi) with hi < 0
    | CropOutOfBounds     // assert x + crop_width < w, or y + crop_height < h
    | ReshapeMismatch     // the crop does not have crop_width * crop_height * 3 values

  /** The random draws for one image: the crop origin and the flip dice. */
  datatype Draw = Draw(x: int, y: int, flip: bool)

  /** random_integers(0, hi) draws from [0, hi]. */
  predicate DrawOk(m: Array3, cw: nat, ch: nat, random: bool, d: Draw)
  {
    random ==>
      (m.w - cw - 1 >= 0 ==> 0 <= d.x <= m.w - cw - 1) &&
      (m.h - ch - 1 >= 0 ==> 0 <= d.y <= m.h - ch - 1)
  }

  /**
   * process_image on one image as written: the crop origin, the two
   * assertions, the slice [x:x+cw, y:y+cw, :] (crop_width on both axes), the
   * optional flip and the reshape to one column.
   */
  function TransformAsWritten(m: Array3, cw: nat, ch: nat, random: bool, d: Draw): (r: Result<seq<int>, ProcessError>)
    requires Shaped(m) && DrawOk(m, cw, ch, random, d)
  {
    CropAndFlatten(m, cw, ch, cw, random, d)
  }

  /** The same with the slice [x:x+cw, y:y+ch, :] the two crop sizes call for. */
  function Transform(m: Array3, cw: nat, ch: nat, random: bool, d: Draw): (r: Result<seq<int>, ProcessError>)
    requires Shaped(m) && DrawOk(m, cw, ch, random, d)
  {
    CropAndFlatten(m, cw, ch, ch, random, d)
  }

  /** The crop origin process_image uses: drawn, or half the slack. */
  function Origin(m: Array3, cw: nat, ch: nat, random: bool, d: Draw): (o: (int, int))
  {
    if random then (d.x, d.y) else (FixedOffset(m.w, cw), FixedOffset(m.h, ch))
  }

  /** process_image on one image, slicing extent values along the second axis. */
  function CropAndFlatten(m: Array3, cw: nat, ch: nat, extent: nat, random: bool, d: Draw): (r: Result<seq<int>, ProcessError>)
    requires Shaped(m) && DrawOk(m, cw, ch, random, d)
  {
    if random && (m.w - cw - 1 < 0 || m.h - ch - 1 < 0) then Failure(EmptyOffsetRange)
    else
      var (x, y) := Origin(m, cw, ch, random, d);
      if !(x + cw < m.w && y + ch < m.h) then Failure(CropOutOfBounds)
      else
        FixedCropAssertion(m.w, cw);
        FixedCropAssertion(m.h, ch);
        var block := Crop(m, x, y, cw, extent);
        var block' := if random && d.flip then Mirror(block) else block;
        if block'.w * block'.h * block'.a != cw * ch * 3 then Failure(ReshapeMismatch)
        else Success(Flatten(block'))
  }

  /** A column that comes out has the cw * ch * 3 values the reshape asks for. */
  lemma TransformLength(m: Array3, cw: nat, ch: nat, extent: nat, random: bool, d: Draw)
    requires Shaped(m) && DrawOk(m, cw, ch, random, d)
    ensures CropAndFlatten(m, cw, ch, extent, random, d).Success? ==>
      |CropAndFlatten(m, cw, ch, extent, random, d).value| == cw * ch * 3
  {
    var r := CropAndFlatten(m, cw, ch, extent, random, d);
    if r.Success? {
      FixedCropAssertion(m.w, cw);
      FixedCropAssertion(m.h, ch);
      var (x, y) := Origin(m, cw, ch, random, d);
      var block := Crop(m, x, y, cw, extent);
      var block' := if random && d.flip then Mirror(block) else block;
      assert r.value == Flatten(block');
      FlattenLength(block');
      Assoc(block'.w, block'.h, block'.a);
    }
  }

  /**
   * How one image fares: a random crop fails only for want of an offset to
   * draw, a fixed crop only at its assertions, and both only when an axis is
   * not longer than the crop.
   */
  lemma TransformErrors(m: Array3, cw: nat, ch: nat, extent: nat, random: bool, d: Draw)
    requires Shaped(m) && DrawOk(m, cw, ch, random, d)
    ensures CropAndFlatten(m, cw, ch, extent, random, d) == Failure(EmptyOffsetRange) <==>
      random && (m.w <= cw || m.h <= ch)
    ensures CropAndFlatten(m, cw, ch, extent, random, d) == Failure(CropOutOfBounds) <==>
      !random && (m.w <= cw || m.h <= ch)
  {
    FixedCropAssertion(m.w, cw);
    FixedCropAssertion(m.h, ch);
  }

  /**
   * Past the assertions, the crop as written reshapes exactly when the crop
   * is square (for a three-channel image and a crop at least one wide).
   */
  lemma AsWrittenNeedsSquareCrop(m: Array3, cw: nat, ch: nat, random: bool, d: Draw)
    requires Shaped(m) && DrawOk(m, cw, ch, random, d)
    requires Fits(m, cw, ch) && cw > 0
    ensures TransformAsWritten(m, cw, ch, random, d).Success? <==> cw == ch
  {
    FixedCropAssertion(m.w, cw);
    FixedCropAssertion(m.h, ch);
    var (x, y) := Origin(m, cw, ch, random, d);
    var rows := SliceEnd(y + cw, m.h) - y;
    assert rows == ch <==> cw == ch;
    if rows != ch {
      ProductDiffers(cw, rows, ch);
    }
  }

  /** cw * p * 3 and cw * q * 3 differ when p and q do and cw is positive. */
  lemma ProductDiffers(cw: nat, p: nat, q: nat)
    requires cw > 0 && p != q
    ensures cw * p * 3 != cw * q * 3
  {
    if p < q {
      assert cw * q * 3 == cw * p * 3 + cw * (q - p) * 3;
    } else {
      assert cw * p * 3 == cw * q * 3 + cw * (p - q) * 3;
    }
  }

  /** A 2-wide, 1-high crop of a 4 x 4 x 3 image: the slice has 12 values, the column 6. */
  lemma NonSquareCropFails()
    ensures TransformAsWritten(Array3(4, 4, 3, Zeros(4, 4, 3)), 2, 1, false, Draw(0, 0, false)) == Failure(ReshapeMismatch)
    ensures Transform(Array3(4, 4, 3, Zeros(4, 4, 3)), 2, 1, false, Draw(0, 0, false)).Success?
  {
    var m := Array3(4, 4, 3, Zeros(4, 4, 3));
    FixedCropAssertion(4, 2);
    FixedCropAssertion(4, 1);
    assert Crop(m, 1, 1, 2, 2).h == 2;
    assert Crop(m, 1, 1, 2, 1).h == 1;
  }

  /** A w x h x a array of zeros. */
  function Zeros(w: nat, h: nat, a: nat): (px: seq<seq<seq<int>>>)
    ensures Shaped(Array3(w, h, a, px))
  {
    seq(w, i => seq(h, j => seq(a, k => 0)))
  }

  /** The image is longer than the crop along both axes and has three channels. */
  predicate Fits(m: Array3, cw: nat, ch: nat)
  {
    m.w > cw && m.h > ch && m.a == 3
  }

  /**
   * With the slice the crop sizes call for, every image whose axes are longer
   * than the crop and which has three channels gives a column of
   * cw * ch * 3 values.
   */
  lemma TransformSucceeds(m: Array3, cw: nat, ch: nat, random: bool, d: Draw)
    requires Shaped(m) && DrawOk(m, cw, ch, random, d)
    requires Fits(m, cw, ch)
    ensures Transform(m, cw, ch, random, d).Success?
    ensures |Transform(m, cw, ch, random, d).value| == cw * ch * 3
  {
    FixedCropAssertion(m.w, cw);
    FixedCropAssertion(m.h, ch);
    var (x, y) := Origin(m, cw, ch, random, d);
    var block := Crop(m, x, y, cw, ch);
    var block' := if random && d.flip then Mirror(block) else block;
    assert block'.w == cw && block'.h == ch && block'.a == 3;
    TransformLength(m, cw, ch, ch, random, d);
  }

  /**
   * For a crop at least one wide and one high, an image goes through exactly
   * when it fits: any other image fails at the offset draw, at an assertion
   * or at the reshape.
   */
  lemma TransformFits(m: Array3, cw: nat, ch: nat, random: bool, d: Draw)
    requires Shaped(m) && DrawOk(m, cw, ch, random, d)
    requires cw > 0 && ch > 0
    ensures Transform(m, cw, ch, random, d).Success? <==> Fits(m, cw, ch)
  {
    if Fits(m, cw, ch) {
      TransformSucceeds(m, cw, ch, random, d);
    } else if m.w <= cw || m.h <= ch {
      TransformErrors(m, cw, ch, ch, random, d);
    } else {
      FixedCropAssertion(m.w, cw);
      FixedCropAssertion(m.h, ch);
      var (x, y) := Origin(m, cw, ch, random, d);
      var block := Crop(m, x, y, cw, ch);
      var block' := if random && d.flip then Mirror(block) else block;
      assert block'.w == cw && block'.h == ch && block'.a == m.a;
      ScaleDiffers(cw * ch, m.a, 3);
    }
  }

  /** x * p and x * q differ when p and q do and x is positive. */
  lemma ScaleDiffers(x: int, p: int, q: int)
    requires x > 0 && p != q
    ensures x * p != x * q
  {
    if p < q {
      assert x * q == x * p + x * (q - p);
    } else {
      assert x * p == x * q + x * (p - q);
    }
  }

  /**
   * Value (i, j, k) of the crop, mirrored on the second axis when the dice
   * say so, sits at i * (ch * 3) + j * 3 + k of the column.
   */
  lemma TransformPixel(m: Array3, cw: nat, ch: nat, random: bool, d: Draw, i: nat, j: nat, k: nat)
    requires Shaped(m) && DrawOk(m, cw, ch, random, d)
    requires Fits(m, cw, ch)
    requires i < cw && j < ch && k < 3
    ensures Transform(m, cw, ch, random, d).Success?
    ensures i * (ch * 3) + j * 3 + k < |Transform(m, cw, ch, random, d).value|
    ensures Transform(m, cw, ch, random, d).value[i * (ch * 3) + j * 3 + k] ==
      m.px[Origin(m, cw, ch, random, d).0 + i][Origin(m, cw, ch, random, d).1 + (if random && d.flip then ch - 1 - j else j)][k]
  {
    TransformSucceeds(m, cw, ch, random, d);
    var (x, y) := Origin(m, cw, ch, random, d);
    var block := Crop(m, x, y, cw, ch);
    var block' := if random && d.flip then Mirror(block) else block;
    assert Transform(m, cw, ch, random, d).value == Flatten(block');
    FlattenAt(block', i, j, k);
    if random && d.flip {
      MirrorAt(block, i, j);
      CropAt(m, x, y, cw, ch, i, ch - 1 - j);
    } else {
      CropAt(m, x, y, cw, ch, i, j);
    }
  }

  /** For square crops the slice as written is the intended one. */
  lemma SquareCropAgrees(m: Array3, c: nat, random: bool, d: Draw)
    requires Shaped(m) && DrawOk(m, c, c, random, d)
    ensures TransformAsWritten(m, c, c, random, d) == Transform(m, c, c, random, d)
  {
  }

  // ---------------------------------------------------------------------------
  // process_image, a whole batch

  /** What process_image returns: the counters unchanged, the data and the label row. */
  datatype Outcome =
    | Processed(epoch: int, batch: int, data: array2<int>, labelRow: array2<int>)
    | Failed(error: ProcessError)

  /** Columns 0..n of data hold the transformed images under the draws. */
  ghost predicate ColumnsHold(data: array2<int>, images: seq<Array3>, draws: seq<Draw>,
                              cw: nat, ch: nat, random: bool, n: nat)
    reads data
  {
    n <= |images| && n <= |draws| && n <= data.Length1 &&
    forall p :: 0 <= p < n ==>
      Shaped(images[p]) && DrawOk(images[p], cw, ch, random, draws[p]) &&
      Transform(images[p], cw, ch, random, draws[p]).Success? &&
      |Transform(images[p], cw, ch, random, draws[p]).value| == data.Length0 &&
      forall q :: 0 <= q < data.Length0 ==>
        data[q, p] == Transform(images[p], cw, ch, random, draws[p]).value[q]
  }

  /** Columns 0..n of data hold the values cols. */
  ghost predicate DataHolds(data: array2<int>, cols: seq<seq<int>>, n: nat)
    reads data
  {
    n <= |cols| && n <= data.Length1 &&
    forall p :: 0 <= p < n ==>
      |cols[p]| == data.Length0 && forall q :: 0 <= q < data.Length0 ==> data[q, p] == cols[p][q]
  }

  /** cols[p] is the column image p gives under draw p, for each p < n. */
  ghost predicate ColumnsOf(images: seq<Array3>, draws: seq<Draw>, cols: seq<seq<int>>,
                            cw: nat, ch: nat, random: bool, n: nat)
  {
    n <= |images| && n <= |draws| && n <= |cols| &&
    forall p :: 0 <= p < n ==>
      Shaped(images[p]) && DrawOk(images[p], cw, ch, random, draws[p]) &&
      Transform(images[p], cw, ch, random, draws[p]) == Success(cols[p])
  }

  /** The columns hold the transformed images when they hold values that are those images' columns. */
  lemma ColumnsHoldOf(data: array2<int>, images: seq<Array3>, draws: seq<Draw>, cols: seq<seq<int>>,
                      cw: nat, ch: nat, random: bool, n: nat)
    requires DataHolds(data, cols, n) && ColumnsOf(images, draws, cols, cw, ch, random, n)
    ensures ColumnsHold(data, images, draws, cw, ch, random, n)
  {
  }

  /** One more column that image n gives under draw d. */
  lemma ColumnsOfAppend(images: seq<Array3>, draws: seq<Draw>, cols: seq<seq<int>>, d: Draw, col: seq<int>,
                        cw: nat, ch: nat, random: bool)
    requires |draws| == |cols| < |images|
    requires ColumnsOf(images, draws, cols, cw, ch, random, |draws|)
    requires Shaped(images[|draws|]) && DrawOk(images[|draws|], cw, ch, random, d)
    requires Transform(images[|draws|], cw, ch, random, d) == Success(col)
    ensures ColumnsOf(images, draws + [d], cols + [col], cw, ch, random, |draws| + 1)
  {
    var ds, cs := draws + [d], cols + [col];
    assert forall p :: 0 <= p < |draws| ==> ds[p] == draws[p] && cs[p] == cols[p];
  }

  /** The first n labels sit in the one label row. */
  ghost predicate LabelsHold(labelRow: array2<int>, labels: seq<int>, n: nat)
    reads labelRow
  {
    labelRow.Length0 == 1 && n <= |labels| && n <= labelRow.Length1 &&
    forall p :: 0 <= p < n ==> labelRow[0, p] == labels[p]
  }

  /**
   * The images before the last draw went through, and the last one failed
   * with err.
   */
  ghost predicate FailsAt(images: seq<Array3>, draws: seq<Draw>, cw: nat, ch: nat, random: bool, err: ProcessError)
  {
    0 < |draws| <= |images| &&
    (forall p :: 0 <= p < |draws| ==> Shaped(images[p]) && DrawOk(images[p], cw, ch, random, draws[p])) &&
    (forall p :: 0 <= p < |draws| - 1 ==> Transform(images[p], cw, ch, random, draws[p]).Success?) &&
    Transform(images[|draws| - 1], cw, ch, random, draws[|draws| - 1]) == Failure(err)
  }

  /** Every image of the batch fits the crop. */
  predicate AllFit(images: seq<Array3>, cw: nat, ch: nat)
  {
    forall i :: 0 <= i < |images| ==> Fits(images[i], cw, ch)
  }

  /** A fitting image goes through, and what goes through has cw * ch * 3 values. */
  lemma TransformOutcome(m: Array3, cw: nat, ch: nat, random: bool, d: Draw)
    requires Shaped(m) && DrawOk(m, cw, ch, random, d)
    ensures Fits(m, cw, ch) ==> Transform(m, cw, ch, random, d).Success?
    ensures Transform(m, cw, ch, random, d).Success? ==> |Transform(m, cw, ch, random, d).value| == cw * ch * 3
  {
    if Fits(m, cw, ch) {
      TransformSucceeds(m, cw, ch, random, d);
    }
    TransformLength(m, cw, ch, ch, random, d);
  }

  /** Columns that went through, then one image that fails: so not every image fits. */
  lemma FailsHere(images: seq<Array3>, prev: seq<Draw>, cols: seq<seq<int>>, d: Draw, cw: nat, ch: nat, random: bool,
                   err: ProcessError)
    requires |prev| < |images| && Shaped(images[|prev|]) && DrawOk(images[|prev|], cw, ch, random, d)
    requires ColumnsOf(images, prev, cols, cw, ch, random, |prev|)
    requires Transform(images[|prev|], cw, ch, random, d) == Failure(err)
    ensures FailsAt(images, prev + [d], cw, ch, random, err)
    ensures !AllFit(images, cw, ch)
  {
    var ds := prev + [d];
    assert forall p :: 0 <= p < |prev| ==> ds[p] == prev[p];
    TransformOutcome(images[|prev|], cw, ch, random, d);
  }

  class ProcessImage {
    const cropWidth: nat
    const cropHeight: nat
    const randomTransform: bool

    constructor(cropWidth: nat, cropHeight: nat, randomTransform: bool)
      ensures this.cropWidth == cropWidth && this.cropHeight == cropHeight
      ensures this.randomTransform == randomTransform
    {
      this.cropWidth := cropWidth;
      this.cropHeight := cropHeight;
      this.randomTransform := randomTransform;
    }

    /**
     * ImagenetDataProvider.get_data_dims: the rows of a data column for
     * index 0, the one label row for index 1, and None for anything else.
     */
    function GetDataDims(idx: int): (r: Option<nat>)
      ensures r.Some? <==> idx == 0 || idx == 1
      ensures idx == 0 ==> r == Some(cropWidth * cropHeight * 3)
      ensures idx == 1 ==> r == Some(1)
    {
      if idx == 0 then Some(cropWidth * cropHeight * 3)
      else if idx == 1 then Some(1)
      else None
    }

    /**
     * process_image: one column per image, filled in turn, and the labels in
     * one row. draws records the random choices made for each image handled.
     * The crop is the crop_width x crop_height block (see Transform).
     */
    method ProcessBatch(epoch: int, batch: int, images: seq<Array3>, labels: seq<int>)
      returns (r: Outcome, ghost draws: seq<Draw>)
      requires forall i :: 0 <= i < |images| ==> Shaped(images[i])
      ensures |images| != |labels| <==> r == Failed(LabelCountMismatch)
      ensures r.Processed? ==> fresh(r.data) && fresh(r.labelRow) && r.epoch == epoch && r.batch == batch
      ensures r.Processed? ==>
        r.data.Length0 == GetDataDims(0).value && r.data.Length1 == |images| && |draws| == |images| &&
        ColumnsHold(r.data, images, draws, cropWidth, cropHeight, randomTransform, |images|)
      ensures r.Processed? ==>
        r.labelRow.Length0 == GetDataDims(1).value && LabelsHold(r.labelRow, labels, |labels|)
      ensures r.Failed? && |images| == |labels| ==>
        FailsAt(images, draws, cropWidth, cropHeight, randomTransform, r.error)
      ensures |images| == |labels| && AllFit(images, cropWidth, cropHeight) ==> r.Processed?
    {
      if |images| != |labels| {
        return Failed(LabelCountMismatch), [];
      }
      r, draws := FillBatch(epoch, batch, images, labels);
    }

    /** The loop of process_image, once the numbers of images and labels agree. */
    method FillBatch(epoch: int, batch: int, images: seq<Array3>, labels: seq<int>)
      returns (r: Outcome, ghost draws: seq<Draw>)
      requires forall i :: 0 <= i < |images| ==> Shaped(images[i])
      requires |images| == |labels|
      ensures r != Failed(LabelCountMismatch)
      ensures r.Processed? ==> fresh(r.data) && fresh(r.labelRow) && r.epoch == epoch && r.batch == batch
      ensures r.Processed? ==>
        r.data.Length0 == cropWidth * cropHeight * 3 && r.data.Length1 == |images| && |draws| == |images| &&
        ColumnsHold(r.data, images, draws, cropWidth, cropHeight, randomTransform, |images|)
      ensures r.Processed? ==> r.labelRow.Length0 == 1 && LabelsHold(r.labelRow, labels, |labels|)
      ensures r.Failed? ==> FailsAt(images, draws, cropWidth, cropHeight, randomTransform, r.error)
      ensures AllFit(images, cropWidth, cropHeight) ==> r.Processed?
    {
      draws := [];
      var n := |images|;
      var rows := cropWidth * cropHeight * 3;
      var data := new int[rows, n]((q, p) => 0);
      var labelRow := new int[1, n]((q, p) => 0);
      ghost var cols: seq<seq<int>> := [];
      for i := 0 to n
        invariant |draws| == i && |cols| == i
        invariant ColumnsOf(images, draws, cols, cropWidth, cropHeight, randomTransform, i)
        invariant DataHolds(data, cols, i)
        invariant LabelsHold(labelRow, labels, i)
      {
        var v;
        ghost var d;
        v, d := Step(data, labelRow, images, labels, i, draws, cols);
        draws := draws + [d];
        if v.Failure? {
          return Failed(v.error), draws;
        }
        cols := cols + [v.value];
      }
      ColumnsHoldOf(data, images, draws, cols, cropWidth, cropHeight, randomTransform, n);
      r := Processed(epoch, batch, data, labelRow);
    }

    /**
     * One round of the loop: draw, transform image i, and store its column
     * and its label; or report the error that stops the batch.
     */
    method Step(data: array2<int>, labelRow: array2<int>, images: seq<Array3>, labels: seq<int>, i: nat,
                ghost draws: seq<Draw>, ghost cols: seq<seq<int>>)
      returns (v: Result<seq<int>, ProcessError>, ghost d: Draw)
      requires forall p :: 0 <= p < |images| ==> Shaped(images[p])
      requires i < |images| == |labels| && |draws| == i && |cols| == i
      requires data.Length0 == cropWidth * cropHeight * 3 && data.Length1 == |images| && labelRow.Length1 == |labels|
      requires data != labelRow
      requires ColumnsOf(images, draws, cols, cropWidth, cropHeight, randomTransform, i)
      requires DataHolds(data, cols, i) && LabelsHold(labelRow, labels, i)
      modifies data, labelRow
      ensures v.Failure? ==>
        FailsAt(images, draws + [d], cropWidth, cropHeight, randomTransform, v.error) &&
        v.error != LabelCountMismatch && !AllFit(images, cropWidth, cropHeight)
      ensures v.Success? ==>
        ColumnsOf(images, draws + [d], cols + [v.value], cropWidth, cropHeight, randomTransform, i + 1) &&
        DataHolds(data, cols + [v.value], i + 1) && LabelsHold(labelRow, labels, i + 1)
    {
      var m := images[i];
      var dice := DrawFor(m);
      d := dice;
      v := Transform(m, cropWidth, cropHeight, randomTransform, dice);
      if v.Failure? {
        FailsHere(images, draws, cols, d, cropWidth, cropHeight, randomTransform, v.error);
        return;
      }
      TransformOutcome(m, cropWidth, cropHeight, randomTransform, d);
      ColumnsOfAppend(images, draws, cols, d, v.value, cropWidth, cropHeight, randomTransform);
      WriteColumn(data, i, v.value, cols);
      labelRow[0, i] := labels[i];
    }

    /** The random draws for one image: offsets only when there is a range to draw from. */
    method DrawFor(m: Array3) returns (d: Draw)
      ensures DrawOk(m, cropWidth, cropHeight, randomTransform, d)
    {
      d := Draw(0, 0, false);
      if randomTransform && m.w - cropWidth - 1 >= 0 && m.h - cropHeight - 1 >= 0 {
        var x :| 0 <= x <= m.w - cropWidth - 1;
        var y :| 0 <= y <= m.h - cropHeight - 1;
        var flip: bool :| true;
        d := Draw(x, y, flip);
      }
    }

    /** result_data[:, i] = column, keeping the columns before i. */
    static method WriteColumn(data: array2<int>, i: nat, column: seq<int>, ghost cols: seq<seq<int>>)
      modifies data
      requires i < data.Length1 && |cols| == i
      requires DataHolds(data, cols, i)
      requires |column| == data.Length0
      ensures DataHolds(data, cols + [column], i + 1)
      ensures forall q, p :: 0 <= q < data.Length0 && 0 <= p < data.Length1 && p != i ==> data[q, p] == old(data[q, p])
    {
      for q := 0 to data.Length0
        invariant forall q', p :: 0 <= q' < data.Length0 && 0 <= p < data.Length1 && p != i ==> data[q', p] == old(data[q', p])
        invariant forall q' :: 0 <= q' < q ==> data[q', i] == column[q']
      {
        data[q, i] := column[q];
      }
    }
  }
}
