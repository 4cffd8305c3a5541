/** `find_most_common_color` of spriteutil.py: flatten an image column by
    column and take the statistical mode of the pixel values, as Python's
    `statistics.mode` (3.8 and later) does. */
module MostCommonColor {
  import opened Python

  /** What `statistics.mode` raises when it is given no data. */
  const NoModeForEmptyData: string := "no mode for empty data"

  /** A read-only image: its size and its pixel lookup `getpixel((x, y))`,
      meaningful for `x < width` and `y < height`. */
  datatype Image<P> = Image(width: nat, height: nat, getpixel: (nat, nat) -> P)

  /** The number of occurrences of `v` in `s`. */
  function Count<T(==,!new)>(s: seq<T>, v: T): nat
  {
    multiset(s)[v]
  }

  // ---------------------------------------------------------------------------
  // statistics.mode

  /** The left-to-right scan that picks a most frequent element: `best` is the
      first of the elements before `i` with the largest count. */
  function ModeIndexFrom<T(==,!new)>(s: seq<T>, i: nat, best: nat): (k: nat)
    requires best < i <= |s|
    requires forall j :: 0 <= j < i ==> Count(s, s[j]) <= Count(s, s[best])
    requires forall j :: 0 <= j < best ==> Count(s, s[j]) < Count(s, s[best])
    ensures k < |s|
    ensures forall j :: 0 <= j < |s| ==> Count(s, s[j]) <= Count(s, s[k])
    ensures forall j :: 0 <= j < k ==> Count(s, s[j]) < Count(s, s[k])
    decreases |s| - i
  {
    if i == |s| then best
    else if Count(s, s[best]) < Count(s, s[i]) then ModeIndexFrom(s, i + 1, i)
    else ModeIndexFrom(s, i + 1, best)
  }

  /** The position of the mode: the first position whose element has the
      largest count. */
  function ModeIndex<T(==,!new)>(s: seq<T>): (k: nat)
    requires |s| > 0
    ensures k < |s|
    ensures forall j :: 0 <= j < |s| ==> Count(s, s[j]) <= Count(s, s[k])
    ensures forall j :: 0 <= j < k ==> Count(s, s[j]) < Count(s, s[k])
  {
    ModeIndexFrom(s, 1, 0)
  }

  /** The mode of non-empty data: a value of the data that no other value
      outnumbers, the first such value in the order of the data. */
  function Mode<T(==,!new)>(s: seq<T>): (m: T)
    requires |s| > 0
    ensures m in s
    ensures forall v :: Count(s, v) <= Count(s, m)
  {
    var k := ModeIndex(s);
    assert forall v :: v in s ==> Count(s, v) <= Count(s, s[k]) by {
      forall v | v in s ensures Count(s, v) <= Count(s, s[k]) {
        var j :| 0 <= j < |s| && s[j] == v;
      }
    }
    s[k]
  }

  /** `statistics.mode(data)`: the mode, or `StatisticsError` on empty data. */
  function StatisticsMode<T(==,!new)>(data: seq<T>): (r: Result<T>)
    ensures r.Failure? <==> |data| == 0
    ensures r.Failure? ==> r.error == StatisticsError(NoModeForEmptyData)
    ensures r.Success? ==> r.value in data && forall v :: Count(data, v) <= Count(data, r.value)
    ensures r.Success? ==> IsFirstMode(data, r.value)
  {
    if |data| == 0 then Failure(StatisticsError(NoModeForEmptyData))
    else
      ModeIsTheFirstMode(data, Mode(data));
      Success(Mode(data))
  }

  /** `m` is a mode of `s` in the sense of Python 3.8: it occurs at some
      position `k`, no value outnumbers it, and every element before `k`
      is strictly less frequent. */
  ghost predicate IsFirstMode<T(!new)>(s: seq<T>, m: T)
  {
    exists k :: 0 <= k < |s| && s[k] == m &&
      (forall v :: Count(s, v) <= Count(s, m)) &&
      (forall j :: 0 <= j < k ==> Count(s, s[j]) < Count(s, m))
  }

  /** `Mode` is the first mode, and the first mode is unique: the three
      conditions of `IsFirstMode` determine the result of `statistics.mode`. */
  lemma ModeIsTheFirstMode<T(!new)>(s: seq<T>, m: T)
    requires |s| > 0
    ensures IsFirstMode(s, m) <==> m == Mode(s)
  {
    var k := ModeIndex(s);
    assert s[k] == Mode(s);
    if IsFirstMode(s, m) {
      var k' :| 0 <= k' < |s| && s[k'] == m &&
        (forall v :: Count(s, v) <= Count(s, m)) &&
        (forall j :: 0 <= j < k' ==> Count(s, s[j]) < Count(s, m));
      assert Count(s, m) == Count(s, s[k]);
      assert k == k';
    }
    if m == Mode(s) {
      assert 0 <= k < |s| && s[k] == m;
    }
  }

  /** The mode sits at a position no later than any element that ties with it. */
  lemma ModeBeforeTies<T(!new)>(s: seq<T>, p: nat) returns (k: nat)
    requires p < |s|
    requires Count(s, s[p]) == Count(s, Mode(s))
    ensures k <= p && s[k] == Mode(s)
  {
    k := ModeIndex(s);
  }

  // ---------------------------------------------------------------------------
  // The column-major list of pixels

  /** Column `x` of the image, top to bottom: the list built by the inner
      comprehension of `find_most_common_color`. */
  function Column<P>(image: Image<P>, x: nat): (c: seq<P>)
    ensures |c| == image.height
    ensures forall y :: 0 <= y < image.height ==> c[y] == image.getpixel(x, y)
  {
    seq(image.height, (y: int) requires 0 <= y => image.getpixel(x, y))
  }

  /** Columns `0` to `n - 1`, one after another. */
  function ColumnsUpTo<P>(image: Image<P>, n: nat): seq<P>
  {
    if n == 0 then [] else ColumnsUpTo(image, n - 1) + Column(image, n - 1)
  }

  /** Every pixel of the image, in column-major order. */
  function ColumnMajor<P>(image: Image<P>): seq<P>
  {
    ColumnsUpTo(image, image.width)
  }

  /** Pixel `(x, y)` is the entry `x * height + y` of the column-major list,
      which has `n * height` entries after `n` columns. */
  lemma {:induction false} ColumnsUpToAt<P>(image: Image<P>, n: nat, x: nat, y: nat)
    requires x < n && y < image.height
    ensures |ColumnsUpTo(image, n)| == n * image.height
    ensures x * image.height + y < n * image.height
    ensures ColumnsUpTo(image, n)[x * image.height + y] == image.getpixel(x, y)
  {
    var h := image.height;
    ColumnsUpToLength(image, n - 1);
    if x < n - 1 {
      ColumnsUpToAt(image, n - 1, x, y);
    } else {
      assert x * h + y == (n - 1) * h + y;
    }
  }

  /** After `n` columns the list has `n * height` entries. */
  lemma {:induction false} ColumnsUpToLength<P>(image: Image<P>, n: nat)
    ensures |ColumnsUpTo(image, n)| == n * image.height
  {
    if n > 0 {
      ColumnsUpToLength(image, n - 1);
    }
  }

  /** Entry `k` of the list is some pixel `(x, y)` of the first `n` columns,
      with `k == x * height + y`. */
  lemma {:induction false} ColumnsUpToEntry<P>(image: Image<P>, n: nat, k: nat) returns (x: nat, y: nat)
    requires k < |ColumnsUpTo(image, n)|
    ensures x < n && y < image.height
    ensures k == x * image.height + y
    ensures ColumnsUpTo(image, n)[k] == image.getpixel(x, y)
  {
    ColumnsUpToLength(image, n - 1);
    if k < |ColumnsUpTo(image, n - 1)| {
      x, y := ColumnsUpToEntry(image, n - 1, k);
    } else {
      x, y := n - 1, k - (n - 1) * image.height;
    }
  }

  /** The flattened list has `width * height` entries, pixel `(x, y)` at
      position `p == x * height + y`. */
  lemma ColumnMajorLayout<P>(image: Image<P>, x: nat, y: nat) returns (p: nat)
    requires x < image.width && y < image.height
    ensures |ColumnMajor(image)| == image.width * image.height
    ensures p == x * image.height + y && p < |ColumnMajor(image)|
    ensures ColumnMajor(image)[p] == image.getpixel(x, y)
  {
    MulMonotone(0, x, image.height);
    p := x * image.height + y;
    ColumnsUpToAt(image, image.width, x, y);
  }

  /** `v` is the value of some pixel of the image. */
  ghost predicate InImage<P>(image: Image<P>, v: P)
  {
    exists x: nat, y: nat :: x < image.width && y < image.height && image.getpixel(x, y) == v
  }

  /** A value occurs in the flattened list exactly when some pixel has it. */
  lemma InColumnMajorIffInImage<P>(image: Image<P>, v: P)
    ensures v in ColumnMajor(image) <==> InImage(image, v)
  {
    if v in ColumnMajor(image) {
      var k :| 0 <= k < |ColumnMajor(image)| && ColumnMajor(image)[k] == v;
      var x, y := ColumnsUpToEntry(image, image.width, k);
    }
    if InImage(image, v) {
      var x: nat, y: nat :| x < image.width && y < image.height && image.getpixel(x, y) == v;
      var p := ColumnMajorLayout(image, x, y);
    }
  }

  /** The number of pixels whose value is `v`. */
  function PixelCount<P(==,!new)>(image: Image<P>, v: P): nat
  {
    Count(ColumnMajor(image), v)
  }

  // ---------------------------------------------------------------------------
  // find_most_common_color

  /** The most common colour of an image with pixels: the mode of its pixels
      in column-major order. It is a pixel value of the image, and no value is
      the value of more pixels. */
  function MostCommonColorOf<P(==,!new)>(image: Image<P>): (c: P)
    requires image.width > 0 && image.height > 0
    ensures InImage(image, c)
    ensures forall v :: PixelCount(image, v) <= PixelCount(image, c)
  {
    ColumnsUpToAt(image, image.width, 0, 0);
    var c := Mode(ColumnMajor(image));
    InColumnMajorIffInImage(image, c);
    c
  }

  /** `find_most_common_color(image)`: the list of pixels is built column by
      column, then handed to `statistics.mode`. The result is a pixel value
      that no other value outnumbers; an image with no pixels raises. */
  method FindMostCommonColor<P(==,!new)>(image: Image<P>) returns (r: Result<P>)
    ensures r.Failure? <==> image.width == 0 || image.height == 0
    ensures r.Failure? ==> r.error == StatisticsError(NoModeForEmptyData)
    ensures r.Success? ==> r.value == MostCommonColorOf(image)
  {
    var listPixels: seq<P> := [];
    for x := 0 to image.width
      invariant listPixels == ColumnsUpTo(image, x)
    {
      listPixels := listPixels + seq(image.height, (y: int) requires 0 <= y => image.getpixel(x, y));
    }
    ColumnsUpToLength(image, image.width);
    r := StatisticsMode(listPixels);
  }

  /** Ties go to the colour met first in column-major order: if pixel `(x, y)`
      is as frequent as the most common colour, that colour already occurs at
      `(x, y)` or at a pixel before it (an earlier column, or higher up in the
      same column). */
  lemma MostCommonColorFirstAmongTies<P(!new)>(image: Image<P>, x: nat, y: nat)
    requires x < image.width && y < image.height
    requires PixelCount(image, image.getpixel(x, y)) == PixelCount(image, MostCommonColorOf(image))
    ensures exists x': nat, y': nat :: y' < image.height && (x' < x || (x' == x && y' <= y)) &&
              image.getpixel(x', y') == MostCommonColorOf(image)
  {
    var s := ColumnMajor(image);
    var h := image.height;
    var p := ColumnMajorLayout(image, x, y);
    var k := ModeBeforeTies(s, p);
    var x', y' := ColumnsUpToEntry(image, image.width, k);
    ColumnMajorOrder(x', y', x, y, h);
    assert MostCommonColorOf(image) == Mode(s);
    assert y' < h && (x' < x || (x' == x && y' <= y)) && image.getpixel(x', y') == MostCommonColorOf(image);
  }

  /** Position `x * h + y` orders pixels column by column, then top to bottom
      within a column. */
  lemma ColumnMajorOrder(x': nat, y': nat, x: nat, y: nat, h: nat)
    requires y' < h && y < h
    ensures x' * h + y' <= x * h + y <==> (x' < x || (x' == x && y' <= y))
  {
    if x < x' {
      MulMonotone(x + 1, x', h);
    }
    if x' < x {
      MulMonotone(x' + 1, x, h);
    }
  }

  /** Multiplying by the same natural number keeps the order. */
  lemma MulMonotone(a: nat, b: nat, c: nat)
    requires a <= b
    ensures a * c <= b * c
  {
  }
}
