/**
 `sort_image` from main.py: sort the samples of an RGB image along one axis.

 An image is a three-dimensional array of integer samples indexed by
 (row, column, channel), that is (height, width, channels), as NumPy holds
 the array `cv2` loads. Sorting along an axis takes every one-dimensional
 line of samples that runs along that axis, sorts it ascending with the
 stable merge sort, and writes it back in place of the original line; lines
 never exchange samples.
 */
module ImageSort {
  import opened MergeSort

  /** Rows of pixels of channel samples: `img[y][x][c]`. */
  type Image = seq<seq<seq<int>>>

  /** A normalised axis: 0 is height, 1 is width, 2 is channel. */
  type Axis = a: int | 0 <= a < 3

  /** The number of axes of an image array. */
  const Rank: int := 3

  /** The number of channels of an RGB image. */
  const RgbChannels: nat := 3

  /** The largest value of an 8-bit sample. */
  const MaxSample: int := 255

  /** The extent of an image along each of its three axes. */
  datatype Shape = Shape(height: nat, width: nat, channels: nat) {
    function Dim(a: Axis): nat {
      if a == 0 then height else if a == 1 then width else channels
    }
  }

  /** A position in an image: row `y`, column `x`, channel `c`. */
  datatype Index = Index(y: int, x: int, c: int) {
    function Coord(a: Axis): int {
      if a == 0 then y else if a == 1 then x else c
    }

    /** The same position with its coordinate along `a` replaced by `k`. */
    function With(a: Axis, k: int): Index {
      if a == 0 then Index(k, x, c) else if a == 1 then Index(y, k, c) else Index(y, x, k)
    }
  }

  /** The error NumPy raises for an axis outside the image's three dimensions. */
  datatype AxisError = AxisOutOfRange(axis: int)

  datatype Result<T> = Success(value: T) | Failure(error: AxisError)

  function ShapeOf(img: Image): Shape {
    if |img| == 0 then Shape(0, 0, 0)
    else if |img[0]| == 0 then Shape(|img|, 0, 0)
    else Shape(|img|, |img[0]|, |img[0][0]|)
  }

  /** Every row has the same width and every pixel the same number of channels. */
  predicate Rectangular(img: Image) {
    && (forall y :: 0 <= y < |img| ==> |img[y]| == ShapeOf(img).width)
    && (forall y, x :: 0 <= y < |img| && 0 <= x < |img[y]| ==> |img[y][x]| == ShapeOf(img).channels)
  }

  predicate InBounds(sh: Shape, p: Index) {
    0 <= p.y < sh.height && 0 <= p.x < sh.width && 0 <= p.c < sh.channels
  }

  /** The coordinates of `p` other than the one along `a` lie inside `sh`. */
  predicate LineInBounds(sh: Shape, a: Axis, p: Index) {
    && (a == 0 || 0 <= p.y < sh.height)
    && (a == 1 || 0 <= p.x < sh.width)
    && (a == 2 || 0 <= p.c < sh.channels)
  }

  /** Every sample lies in [lo, hi]. */
  ghost predicate SamplesWithin(img: Image, lo: int, hi: int)
    requires Rectangular(img)
  {
    forall p :: InBounds(ShapeOf(img), p) ==> lo <= Sample(img, p) <= hi
  }

  /** What `read_image` delivers: a three-channel image of 8-bit samples. */
  ghost predicate IsRgbImage(img: Image) {
    Rectangular(img) && ShapeOf(img).channels == RgbChannels && SamplesWithin(img, 0, MaxSample)
  }

  function Sample(img: Image, p: Index): int
    requires Rectangular(img) && InBounds(ShapeOf(img), p)
  {
    img[p.y][p.x][p.c]
  }

  /** The one-dimensional slice of `img` through `p` along axis `a`. */
  function Line(img: Image, a: Axis, p: Index): seq<int>
    requires Rectangular(img) && LineInBounds(ShapeOf(img), a, p)
  {
    seq(ShapeOf(img).Dim(a), k requires 0 <= k < ShapeOf(img).Dim(a) => Sample(img, p.With(a, k)))
  }

  /** The sample that sorting the line through `p` along `a` puts at `p`. */
  function SortedSample(img: Image, a: Axis, p: Index): int
    requires Rectangular(img) && InBounds(ShapeOf(img), p)
  {
    Sort(Line(img, a, p))[p.Coord(a)]
  }

  /**
   `np.sort(image, kind='mergesort', axis=a)` for a normalised axis: every
   line along `a` is replaced by its sorted copy.
   */
  function SortAlong(img: Image, a: Axis): (r: Image)
    requires Rectangular(img)
    ensures Rectangular(r) && ShapeOf(r) == ShapeOf(img)
  {
    var sh := ShapeOf(img);
    seq(sh.height, y requires 0 <= y < sh.height =>
      seq(sh.width, x requires 0 <= x < sh.width =>
        seq(sh.channels, c requires 0 <= c < sh.channels =>
          SortedSample(img, a, Index(y, x, c)))))
  }

  /** NumPy's reading of an axis argument for a three-dimensional array. */
  function NormalizeAxis(axis: int): (r: Result<Axis>)
    ensures r.Success? <==> -Rank <= axis < Rank
    ensures r.Success? ==> r.value % Rank == axis % Rank
  {
    if 0 <= axis < 3 then Success(axis)
    else if -3 <= axis < 0 then Success(axis + 3)
    else Failure(AxisOutOfRange(axis))
  }

  /**
   `sort_image(image, axis=-1)`: the default axis is the last one. An axis
   outside [-3, 2] is the error NumPy raises.
   */
  function SortImage(img: Image, axis: int := -1): (r: Result<Image>)
    requires Rectangular(img)
    ensures r.Failure? <==> axis < -3 || 3 <= axis
    ensures r.Success? ==> Rectangular(r.value) && ShapeOf(r.value) == ShapeOf(img)
    ensures r.Success? ==> r.value == SortAlong(img, NormalizeAxis(axis).value)
  {
    match NormalizeAxis(axis)
    case Success(a) => Success(SortAlong(img, a))
    case Failure(e) => Failure(e)
  }

  /** The sorting stage of `main`: sort every column of every channel by height. */
  function MainSort(img: Image): Result<Image>
    requires Rectangular(img)
  {
    SortImage(img, 0)
  }

  // ---------------------------------------------------------------------------
  // Lines

  /** Moving `p` along the line does not change the line. */
  lemma LineWith(img: Image, a: Axis, p: Index, k: int)
    requires Rectangular(img) && LineInBounds(ShapeOf(img), a, p)
    ensures LineInBounds(ShapeOf(img), a, p.With(a, k))
    ensures Line(img, a, p.With(a, k)) == Line(img, a, p)
  {
  }

  /** Two images of one shape with the same samples are the same image. */
  lemma SameSamplesSameImage(img: Image, other: Image)
    requires Rectangular(img) && Rectangular(other) && ShapeOf(img) == ShapeOf(other)
    requires forall p :: InBounds(ShapeOf(img), p) ==> Sample(img, p) == Sample(other, p)
    ensures img == other
  {
    var sh := ShapeOf(img);
    forall y | 0 <= y < sh.height ensures img[y] == other[y] {
      forall x | 0 <= x < sh.width ensures img[y][x] == other[y][x] {
        forall c | 0 <= c < sh.channels ensures img[y][x][c] == other[y][x][c] {
          assert Sample(img, Index(y, x, c)) == Sample(other, Index(y, x, c));
        }
      }
    }
  }

  /**
   Extract, sort, write back: the line of the result through `p` along `a` is
   the sorted line of the input through `p`.
   */
  lemma LineOfSortAlong(img: Image, a: Axis, p: Index)
    requires Rectangular(img) && LineInBounds(ShapeOf(img), a, p)
    ensures Line(SortAlong(img, a), a, p) == Sort(Line(img, a, p))
  {
    var r := SortAlong(img, a);
    var line := Line(img, a, p);
    forall k | 0 <= k < |line| ensures Line(r, a, p)[k] == Sort(line)[k] {
      var q := p.With(a, k);
      LineWith(img, a, p, k);
      assert Sample(r, q) == SortedSample(img, a, q);
    }
  }

  // ---------------------------------------------------------------------------
  // What sort_image promises

  /** Every output line is ascending and holds exactly the samples of the input line. */
  lemma SortAlongSortsEveryLine(img: Image, a: Axis, p: Index)
    requires Rectangular(img) && LineInBounds(ShapeOf(img), a, p)
    ensures Sorted(Line(SortAlong(img, a), a, p))
    ensures multiset(Line(SortAlong(img, a), a, p)) == multiset(Line(img, a, p))
  {
    LineOfSortAlong(img, a, p);
  }

  /**
   The result is the only image of the input's shape whose every line along
   `a` is ascending and a permutation of the input's line: any correct sort,
   stable or not, computes it.
   */
  lemma SortAlongIsUnique(img: Image, a: Axis, r: Image)
    requires Rectangular(img) && Rectangular(r) && ShapeOf(r) == ShapeOf(img)
    requires forall p :: LineInBounds(ShapeOf(img), a, p) ==>
      Sorted(Line(r, a, p)) && multiset(Line(r, a, p)) == multiset(Line(img, a, p))
    ensures r == SortAlong(img, a)
  {
    var s := SortAlong(img, a);
    forall p | InBounds(ShapeOf(img), p) ensures Sample(r, p) == Sample(s, p) {
      assert LineInBounds(ShapeOf(img), a, p);
      SortIsUnique(Line(img, a, p), Line(r, a, p));
      LineOfSortAlong(img, a, p);
      assert p.With(a, p.Coord(a)) == p;
    }
    SameSamplesSameImage(r, s);
  }

  /** Sorting an already sorted image along the same axis changes nothing. */
  lemma SortAlongIdempotent(img: Image, a: Axis)
    requires Rectangular(img)
    ensures SortAlong(SortAlong(img, a), a) == SortAlong(img, a)
  {
    var s := SortAlong(img, a);
    forall p | LineInBounds(ShapeOf(s), a, p) ensures Sorted(Line(s, a, p)) {
      SortAlongSortsEveryLine(img, a, p);
    }
    SortAlongIsUnique(s, a, s);
  }

  /**
   Lines are sorted independently: an output line depends only on the input
   line through the same position, not on any other line.
   */
  lemma LinesAreIndependent(img: Image, other: Image, a: Axis, p: Index)
    requires Rectangular(img) && LineInBounds(ShapeOf(img), a, p)
    requires Rectangular(other) && LineInBounds(ShapeOf(other), a, p)
    requires Line(img, a, p) == Line(other, a, p)
    ensures Line(SortAlong(img, a), a, p) == Line(SortAlong(other, a), a, p)
  {
    LineOfSortAlong(img, a, p);
    LineOfSortAlong(other, a, p);
  }

  /** Sorting creates no sample value: every output sample stays within the input's range. */
  lemma SortAlongKeepsRange(img: Image, a: Axis, lo: int, hi: int)
    requires Rectangular(img) && SamplesWithin(img, lo, hi)
    ensures SamplesWithin(SortAlong(img, a), lo, hi)
  {
    var r := SortAlong(img, a);
    forall p | InBounds(ShapeOf(r), p) ensures lo <= Sample(r, p) <= hi {
      LineOfSortAlong(img, a, p);
      var line := Line(img, a, p);
      var v := Sort(line)[p.Coord(a)];
      assert v in multiset(line);
      var k :| 0 <= k < |line| && line[k] == v;
      assert InBounds(ShapeOf(img), p.With(a, k));
      assert p.With(a, p.Coord(a)) == p;
    }
  }

  // ---------------------------------------------------------------------------
  // The axis argument, its default, and main

  /**
   The default axis is the last one: `sort_image(image)` sorts the channel
   samples of each pixel on their own.
   */
  lemma DefaultAxisSortsEachPixel(img: Image)
    requires Rectangular(img)
    ensures SortImage(img) == SortImage(img, 2)
    ensures SortImage(img).Success?
    ensures forall y, x :: 0 <= y < |img| && 0 <= x < |img[y]| ==>
      SortImage(img).value[y][x] == Sort(img[y][x])
  {
    var r := SortImage(img).value;
    forall y, x | 0 <= y < |img| && 0 <= x < |img[y]| ensures r[y][x] == Sort(img[y][x]) {
      var p := Index(y, x, 0);
      assert Line(img, 2, p) == img[y][x];
      LineOfSortAlong(img, 2, p);
      assert Line(r, 2, p) == r[y][x];
    }
  }

  /**
   Whatever axis in [-3, 2] it is given, `sort_image` sorts every line along
   the dimension that axis names: the line of the result through `p` is the
   ascending sort of the input's line through `p`.
   */
  lemma SortImageSortsLines(img: Image, axis: int, p: Index)
    requires Rectangular(img) && -Rank <= axis < Rank
    requires LineInBounds(ShapeOf(img), NormalizeAxis(axis).value, p)
    ensures SortImage(img, axis).Success?
    ensures Line(SortImage(img, axis).value, NormalizeAxis(axis).value, p)
      == Sort(Line(img, NormalizeAxis(axis).value, p))
  {
    LineOfSortAlong(img, NormalizeAxis(axis).value, p);
  }

  /** A column of one channel: the samples `img[0][x][c]`, ..., `img[height - 1][x][c]`. */
  function Column(img: Image, x: int, c: int): (col: seq<int>)
    requires Rectangular(img) && 0 <= x < ShapeOf(img).width && 0 <= c < ShapeOf(img).channels
    ensures |col| == |img|
    ensures forall y :: 0 <= y < |img| ==> col[y] == img[y][x][c]
  {
    Line(img, 0, Index(0, x, c))
  }

  /**
   `main` sorts every (column, channel) line by height and nothing else: each
   output column is the sorted input column, and an RGB image stays an RGB
   image with samples in [0, 255].
   */
  lemma MainSortsColumns(img: Image)
    requires IsRgbImage(img)
    ensures MainSort(img).Success?
    ensures IsRgbImage(MainSort(img).value)
    ensures forall x, c :: 0 <= x < ShapeOf(img).width && 0 <= c < ShapeOf(img).channels ==>
      Column(MainSort(img).value, x, c) == Sort(Column(img, x, c))
  {
    var r := MainSort(img).value;
    SortAlongKeepsRange(img, 0, 0, MaxSample);
    forall x, c | 0 <= x < ShapeOf(img).width && 0 <= c < ShapeOf(img).channels
      ensures Column(r, x, c) == Sort(Column(img, x, c))
    {
      LineOfSortAlong(img, 0, Index(0, x, c));
    }
  }
}
