/**
 * The sky-quality estimator of `allsky_sqm.py`: mask the gray image, resolve
 * the region of interest (an explicit "x1,y1,x2,y2" string divided by the
 * binning factor, or a centred fallback rectangle), crop it with Python slice
 * rules and average the cropped pixels.
 */
module AllskySqm {
  import opened Wrappers
  import opened Py

  /** A single-channel 8-bit image: `height` rows of `width` pixels, numpy shape (height, width). */
  datatype Image = Image(height: nat, width: nat, px: seq<seq<bv8>>) {
    predicate Valid() {
      |px| == height && forall r :: 0 <= r < height ==> |px[r]| == width
    }
  }

  /** The pixels an array holds. */
  function ImageOf(a: array2<bv8>): (img: Image)
    reads a
    ensures img.Valid() && img.height == a.Length0 && img.width == a.Length1
    ensures forall r, c :: 0 <= r < a.Length0 && 0 <= c < a.Length1 ==> img.px[r][c] == a[r, c]
  {
    Image(a.Length0, a.Length1,
      seq(a.Length0, r requires 0 <= r < a.Length0 reads a =>
        seq(a.Length1, c requires 0 <= c < a.Length1 reads a => a[r, c])))
  }

  /** Two valid images with the same shape and the same pixels are the same image. */
  lemma SameImage(a: Image, b: Image)
    requires a.Valid() && b.Valid() && a.height == b.height && a.width == b.width
    requires forall r, c :: 0 <= r < a.height && 0 <= c < a.width ==> a.px[r][c] == b.px[r][c]
    ensures a == b
  {
    forall r | 0 <= r < a.height ensures a.px[r] == b.px[r] {
      assert forall c :: 0 <= c < a.width ==> a.px[r][c] == b.px[r][c];
    }
  }

  predicate SameShape(a: Image, b: Image) {
    a.height == b.height && a.width == b.width
  }

  /** `cv2.bitwise_and(src1, src2)` on two single-channel images of one shape. */
  function BitwiseAnd(a: Image, b: Image): (r: Image)
    requires a.Valid() && b.Valid() && SameShape(a, b)
    ensures r.Valid() && SameShape(r, a)
    ensures forall i, j :: 0 <= i < a.height && 0 <= j < a.width ==> r.px[i][j] == a.px[i][j] & b.px[i][j]
  {
    Image(a.height, a.width,
      seq(a.height, i requires 0 <= i < a.height =>
        seq(a.width, j requires 0 <= j < a.width => a.px[i][j] & b.px[i][j])))
  }

  /** Lines 98-100: a loaded mask is applied only when its shape is the gray image's. */
  function ApplyMask(gray: Image, mask: Option<Image>): (r: Image)
    requires gray.Valid() && (mask.Some? ==> mask.value.Valid())
    ensures r.Valid() && SameShape(r, gray)
    ensures mask.None? || !SameShape(gray, mask.value) ==> r == gray
    ensures mask.Some? && SameShape(gray, mask.value) ==> r == BitwiseAnd(gray, mask.value)
  {
    if mask.Some? && SameShape(gray, mask.value) then BitwiseAnd(gray, mask.value) else gray
  }

  predicate AllPixels(img: Image, v: bv8)
    requires img.Valid()
  {
    forall r, c :: 0 <= r < img.height && 0 <= c < img.width ==> img.px[r][c] == v
  }

  /** An all-255 mask of the right shape leaves the image as it is. */
  lemma FullMaskKeepsImage(gray: Image, mask: Image)
    requires gray.Valid() && mask.Valid() && SameShape(gray, mask) && AllPixels(mask, 255)
    ensures ApplyMask(gray, Some(mask)) == gray
  {
    var r := ApplyMask(gray, Some(mask));
    forall i, j | 0 <= i < gray.height && 0 <= j < gray.width ensures r.px[i][j] == gray.px[i][j] {
      assert r.px[i][j] == gray.px[i][j] & 255;
    }
    SameImage(r, gray);
  }

  /** An all-0 mask of the right shape blacks out every pixel. */
  lemma EmptyMaskBlacksOut(gray: Image, mask: Image)
    requires gray.Valid() && mask.Valid() && SameShape(gray, mask) && AllPixels(mask, 0)
    ensures AllPixels(ApplyMask(gray, Some(mask)), 0)
  {
    var r := ApplyMask(gray, Some(mask));
    forall i, j | 0 <= i < gray.height && 0 <= j < gray.width ensures r.px[i][j] == 0 {
      assert r.px[i][j] == gray.px[i][j] & 0;
    }
  }

  /** Masking never makes a pixel brighter. */
  lemma MaskNeverBrightens(gray: Image, mask: Option<Image>, i: nat, j: nat)
    requires gray.Valid() && (mask.Some? ==> mask.value.Valid())
    requires i < gray.height && j < gray.width
    ensures ApplyMask(gray, mask).px[i][j] <= gray.px[i][j]
  {
    if mask.Some? && SameShape(gray, mask.value) {
      var x, m := gray.px[i][j], mask.value.px[i][j];
      assert ApplyMask(gray, mask).px[i][j] == x & m;
    }
  }

  /** The pixels `row[lo..hi]` added up. */
  function RowSum(row: seq<bv8>, lo: nat, hi: nat): nat
    requires lo <= hi <= |row|
    decreases hi - lo
  {
    if hi == lo then 0 else RowSum(row, lo, hi - 1) + row[hi - 1] as nat
  }

  predicate Within(img: Image, rows: Span, cols: Span) {
    rows.lo <= rows.hi <= img.height && cols.lo <= cols.hi <= img.width
  }

  /** The pixels of rows `rows` and columns `cols` added up. */
  function RectSum(img: Image, rows: Span, cols: Span): nat
    requires img.Valid() && Within(img, rows, cols)
    decreases rows.hi - rows.lo
  {
    if rows.hi == rows.lo then 0
    else RectSum(img, Span(rows.lo, rows.hi - 1), cols) + RowSum(img.px[rows.hi - 1], cols.lo, cols.hi)
  }

  /** Line 129, `cv2.mean(croppedImage)[0]`, as an exact rational: the sum over the pixel count. */
  function CropMean(img: Image, rows: Span, cols: Span): real
    requires img.Valid() && Within(img, rows, cols) && rows.lo < rows.hi && cols.lo < cols.hi
  {
    RectSum(img, rows, cols) as real / Area(rows, cols) as real
  }

  /** The number of pixels in rows `rows` and columns `cols`. */
  function Area(rows: Span, cols: Span): (n: nat)
    requires rows.lo <= rows.hi && cols.lo <= cols.hi
    ensures rows.lo < rows.hi && cols.lo < cols.hi ==> n > 0
  {
    var h, w := rows.hi - rows.lo, cols.hi - cols.lo;
    PositiveProduct(h, w);
    h * w
  }

  lemma PositiveProduct(h: nat, w: nat)
    ensures h > 0 && w > 0 ==> h * w > 0
  {
  }

  lemma {:induction false} RowSumAtMost(row: seq<bv8>, lo: nat, hi: nat)
    requires lo <= hi <= |row|
    ensures RowSum(row, lo, hi) <= 255 * (hi - lo)
  {
    if hi > lo {
      RowSumAtMost(row, lo, hi - 1);
    }
  }

  lemma {:induction false} RowSumFlat(row: seq<bv8>, lo: nat, hi: nat, k: nat)
    requires lo <= hi <= |row|
    requires forall c :: lo <= c < hi ==> row[c] as nat == k
    ensures RowSum(row, lo, hi) == k * (hi - lo)
  {
    if hi > lo {
      var n := hi - lo;
      RowSumFlat(row, lo, hi - 1, k);
      Distributes(k, n - 1, 1);
    }
  }

  lemma {:induction false} RectSumAtMost(img: Image, rows: Span, cols: Span)
    requires img.Valid() && Within(img, rows, cols)
    ensures RectSum(img, rows, cols) <= 255 * Area(rows, cols)
    decreases rows.hi - rows.lo
  {
    if rows.hi > rows.lo {
      var w, n := cols.hi - cols.lo, rows.hi - rows.lo;
      var prev := Span(rows.lo, rows.hi - 1);
      RectSumAtMost(img, prev, cols);
      RowSumAtMost(img.px[rows.hi - 1], cols.lo, cols.hi);
      AddRowAtMost(RectSum(img, prev, cols), RowSum(img.px[rows.hi - 1], cols.lo, cols.hi), n, w);
    }
  }

  lemma {:induction false} RectSumFlat(img: Image, rows: Span, cols: Span, k: nat)
    requires img.Valid() && Within(img, rows, cols)
    requires forall r, c :: rows.lo <= r < rows.hi && cols.lo <= c < cols.hi ==> img.px[r][c] as nat == k
    ensures RectSum(img, rows, cols) == k * Area(rows, cols)
    decreases rows.hi - rows.lo
  {
    if rows.hi > rows.lo {
      var w, n := cols.hi - cols.lo, rows.hi - rows.lo;
      var prev := Span(rows.lo, rows.hi - 1);
      RectSumFlat(img, prev, cols, k);
      RowSumFlat(img.px[rows.hi - 1], cols.lo, cols.hi, k);
      AddRow(RectSum(img, prev, cols), RowSum(img.px[rows.hi - 1], cols.lo, cols.hi), k, n, w);
    }
  }

  /** `n - 1` rows of level `k` and one more make `n` rows of level `k`. */
  lemma AddRow(s1: int, s2: int, k: int, n: int, w: int)
    requires s1 == k * ((n - 1) * w) && s2 == k * w
    ensures s1 + s2 == k * (n * w)
  {
    Distributes(w, n - 1, 1);
    Distributes(k, (n - 1) * w, w);
  }

  lemma AddRowAtMost(s1: int, s2: int, n: int, w: int)
    requires s1 <= 255 * ((n - 1) * w) && s2 <= 255 * w
    ensures s1 + s2 <= 255 * (n * w)
  {
    Distributes(w, n - 1, 1);
    Distributes(255, (n - 1) * w, w);
  }

  lemma Distributes(k: int, a: int, b: int)
    ensures k * (a + b) == k * a + k * b
  {
  }

  /** The mean of a non-empty crop is a gray level: it lies in [0, 255]. */
  lemma MeanInRange(img: Image, rows: Span, cols: Span)
    requires img.Valid() && Within(img, rows, cols) && rows.lo < rows.hi && cols.lo < cols.hi
    ensures 0.0 <= CropMean(img, rows, cols) <= 255.0
  {
    RectSumAtMost(img, rows, cols);
    RatioBounds(RectSum(img, rows, cols), Area(rows, cols));
  }

  lemma RatioBounds(s: nat, n: nat)
    requires 0 < n && s <= 255 * n
    ensures 0.0 <= s as real / n as real <= 255.0
  {
    assert s as real <= 255.0 * n as real;
  }

  /** A crop whose pixels all equal `v` has mean `v`. */
  lemma MeanOfFlatCrop(img: Image, rows: Span, cols: Span, v: bv8)
    requires img.Valid() && Within(img, rows, cols) && rows.lo < rows.hi && cols.lo < cols.hi
    requires forall r, c :: rows.lo <= r < rows.hi && cols.lo <= c < cols.hi ==> img.px[r][c] == v
    ensures CropMean(img, rows, cols) == v as real
  {
    RectSumFlat(img, rows, cols, v as nat);
    RatioOfMultiple(v as nat, Area(rows, cols));
  }

  lemma RatioOfMultiple(k: nat, n: nat)
    requires 0 < n
    ensures (k * n) as real / n as real == k as real
  {
    assert (k * n) as real == k as real * n as real;
  }

  /** An explicit region of interest, or the fallback one: lines 109-112 and 119-122. */
  datatype Rect = Rect(x1: int, y1: int, x2: int, y2: int)

  /**
   * The try block of lines 107-112: split the text on commas, read the first
   * four fields with `int()` and divide each by the binning factor, truncating
   * toward zero. `None` stands for any exception it raises: too few fields
   * (IndexError), a field `int()` refuses (ValueError), a zero binning factor
   * (ZeroDivisionError). Fields after the fourth are never looked at.
   */
  function ParseRoi(roi: string, binning: int): (r: Option<Rect>)
    ensures r.Some? ==> |Split(roi, ',')| >= 4 && binning != 0
    ensures |Split(roi, ',')| < 4 || binning == 0 ==> r == None
  {
    var f := Split(roi, ',');
    if |f| < 4 || binning == 0 then None
    else if ParseInt(f[0]).None? || ParseInt(f[1]).None? || ParseInt(f[2]).None? || ParseInt(f[3]).None? then None
    else
      Some(Rect(TruncDiv(ParseInt(f[0]).value, binning), TruncDiv(ParseInt(f[1]).value, binning),
                TruncDiv(ParseInt(f[2]).value, binning), TruncDiv(ParseInt(f[3]).value, binning)))
  }

  /** A single field among the first four that `int()` refuses gives the fallback. */
  lemma ParseRoiRejectsField(roi: string, binning: int, i: int)
    requires 0 <= i < 4 <= |Split(roi, ',')|
    requires ParseInt(Split(roi, ',')[i]).None?
    ensures ParseRoi(roi, binning) == None
  {
    var f := Split(roi, ',');
    var bad := ParseInt(f[0]).None? || ParseInt(f[1]).None? || ParseInt(f[2]).None? || ParseInt(f[3]).None?;
    assert bad by {
      assert i == 0 || i == 1 || i == 2 || i == 3;
    }
  }

  /**
   * The rectangle is read exactly when there are four fields, the binning
   * factor is not zero and `int()` accepts each of the first four fields.
   */
  lemma ParseRoiSucceeds(roi: string, binning: int)
    ensures var f := Split(roi, ',');
      ParseRoi(roi, binning).Some? <==>
        |f| >= 4 && binning != 0 && (forall i :: 0 <= i < 4 ==> ParseInt(f[i]).Some?)
  {
    var f := Split(roi, ',');
    if |f| >= 4 && binning != 0 {
      if forall i :: 0 <= i < 4 ==> ParseInt(f[i]).Some? {
        var rect := Rect(ParseInt(f[0]).value, ParseInt(f[1]).value, ParseInt(f[2]).value, ParseInt(f[3]).value);
        ParseRoiOfFields(roi, binning, rect);
      } else {
        var i :| 0 <= i < 4 && ParseInt(f[i]).None?;
        ParseRoiRejectsField(roi, binning, i);
      }
    }
  }

  /** The text "x1,y1,x2,y2" of a rectangle, as the configuration writes it. */
  function RoiText(rect: Rect): string {
    Join([Show(rect.x1), Show(rect.y1), Show(rect.x2), Show(rect.y2)], ',')
  }

  lemma ShowHasNoComma(n: int)
    ensures ',' !in Show(n)
  {
    ShowNatDigits(if n < 0 then -n else n);
    var d := ShowNat(if n < 0 then -n else n);
    assert forall i :: 0 <= i < |d| ==> d[i] != ',';
    if n < 0 {
      assert forall i :: 0 <= i < |Show(n)| ==> Show(n)[i] != ',' by {
        assert Show(n) == "-" + d;
      }
    }
  }

  /**
   * Four integers written as "x1,y1,x2,y2", with any comma-free fields after
   * them, resolve to those integers divided by the binning factor.
   */
  lemma ParseRoiOfText(rect: Rect, fields: seq<string>, binning: int)
    requires binning != 0
    requires |fields| >= 4 && fields[..4] == [Show(rect.x1), Show(rect.y1), Show(rect.x2), Show(rect.y2)]
    requires forall i :: 4 <= i < |fields| ==> ',' !in fields[i]
    ensures ParseRoi(Join(fields, ','), binning)
      == Some(Rect(TruncDiv(rect.x1, binning), TruncDiv(rect.y1, binning),
                   TruncDiv(rect.x2, binning), TruncDiv(rect.y2, binning)))
  {
    var roi := Join(fields, ',');
    FieldsShown(fields, rect);
    FieldsHaveNoComma(rect, fields);
    SplitJoin(fields, ',');
    ParseRoiOfFields(roi, binning, rect);
  }

  lemma FieldsShown(f: seq<string>, rect: Rect)
    requires |f| >= 4 && f[..4] == [Show(rect.x1), Show(rect.y1), Show(rect.x2), Show(rect.y2)]
    ensures f[0] == Show(rect.x1) && f[1] == Show(rect.y1) && f[2] == Show(rect.x2) && f[3] == Show(rect.y2)
    ensures ParseInt(f[0]) == Some(rect.x1) && ParseInt(f[1]) == Some(rect.y1)
    ensures ParseInt(f[2]) == Some(rect.x2) && ParseInt(f[3]) == Some(rect.y2)
  {
    assert f[0] == Show(rect.x1) && f[1] == Show(rect.y1) && f[2] == Show(rect.x2) && f[3] == Show(rect.y2) by {
      assert forall i :: 0 <= i < 4 ==> f[i] == f[..4][i];
    }
    ParseShow(rect.x1); ParseShow(rect.y1); ParseShow(rect.x2); ParseShow(rect.y2);
  }

  lemma FieldsHaveNoComma(rect: Rect, f: seq<string>)
    requires |f| >= 4 && f[0] == Show(rect.x1) && f[1] == Show(rect.y1) && f[2] == Show(rect.x2) && f[3] == Show(rect.y2)
    requires forall i :: 4 <= i < |f| ==> ',' !in f[i]
    ensures forall i :: 0 <= i < |f| ==> ',' !in f[i]
  {
    ShowHasNoComma(rect.x1); ShowHasNoComma(rect.y1); ShowHasNoComma(rect.x2); ShowHasNoComma(rect.y2);
  }

  lemma ParseRoiOfFields(roi: string, binning: int, rect: Rect)
    requires binning != 0
    requires var f := Split(roi, ',');
      && |f| >= 4
      && ParseInt(f[0]) == Some(rect.x1) && ParseInt(f[1]) == Some(rect.y1)
      && ParseInt(f[2]) == Some(rect.x2) && ParseInt(f[3]) == Some(rect.y2)
    ensures ParseRoi(roi, binning) == Some(Rect(TruncDiv(rect.x1, binning), TruncDiv(rect.y1, binning),
                                                 TruncDiv(rect.x2, binning), TruncDiv(rect.y2, binning)))
  {
  }

  /** With binning 1 a rectangle's own text resolves to the rectangle. */
  lemma ParseRoiText(rect: Rect)
    ensures ParseRoi(RoiText(rect), 1) == Some(rect)
  {
    var fields := [Show(rect.x1), Show(rect.y1), Show(rect.x2), Show(rect.y2)];
    assert fields[..4] == fields;
    ParseRoiOfText(rect, fields, 1);
    TruncDivByOne(rect.x1); TruncDivByOne(rect.y1); TruncDivByOne(rect.x2); TruncDivByOne(rect.y2);
  }

  /** With binning 1 the fields are taken as they are. */
  lemma ParseRoiUnbinned(roi: string)
    ensures var r := ParseRoi(roi, 1); var f := Split(roi, ',');
      r.Some? ==> r.value == Rect(ParseInt(f[0]).value, ParseInt(f[1]).value, ParseInt(f[2]).value, ParseInt(f[3]).value)
  {
    var f := Split(roi, ',');
    if |f| >= 4 && ParseInt(f[0]).Some? && ParseInt(f[1]).Some? && ParseInt(f[2]).Some? && ParseInt(f[3]).Some? {
      TruncDivByOne(ParseInt(f[0]).value);
      TruncDivByOne(ParseInt(f[1]).value);
      TruncDivByOne(ParseInt(f[2]).value);
      TruncDivByOne(ParseInt(f[3]).value);
    }
  }

  /** An empty ROI setting has one empty field, so it always falls back. */
  lemma ParseRoiEmpty(binning: int)
    ensures ParseRoi("", binning) == None
  {
  }

  /** "100,100,200,200" with binning 2 is the rectangle (50,50,100,100). */
  lemma ParseRoiBinnedExample()
    ensures ParseRoi("100,100,200,200", 2) == Some(Rect(50, 50, 100, 100))
  {
    var fields := ["100", "100", "200", "200"];
    assert Join(fields, ',') == "100,100,200,200" by {
      assert fields[1..] == ["100", "200", "200"];
      assert fields[1..][1..] == ["200", "200"];
      assert fields[1..][1..][1..] == ["200"];
    }
    assert fields[..4] == [Show(100), Show(100), Show(200), Show(200)] by {
      AsText(100, "100");
      AsText(200, "200");
    }
    ParseRoiOfText(Rect(100, 100, 200, 200), fields, 2);
    assert TruncDiv(100, 2) == 50 && TruncDiv(200, 2) == 100;
  }

  /** "10,10,30,30,extra" is read as (10,10,30,30): the fifth field is ignored, there is no fallback. */
  lemma ParseRoiExtraFieldExample()
    ensures ParseRoi("10,10,30,30,extra", 1) == Some(Rect(10, 10, 30, 30))
  {
    var fields := ["10", "10", "30", "30", "extra"];
    assert Join(fields, ',') == "10,10,30,30,extra" by {
      assert fields[1..] == ["10", "30", "30", "extra"];
      assert fields[1..][1..] == ["30", "30", "extra"];
      assert fields[1..][1..][1..] == ["30", "extra"];
      assert fields[1..][1..][1..][1..] == ["extra"];
    }
    assert fields[..4] == [Show(10), Show(10), Show(30), Show(30)] by {
      AsText(10, "10");
      AsText(30, "30");
    }
    ParseRoiOfText(Rect(10, 10, 30, 30), fields, 1);
    TruncDivByOne(10);
    TruncDivByOne(30);
  }

  lemma AsText(n: nat, s: string)
    requires n < 1000 && s == ShowNat(n)
    ensures Show(n) == s
  {
  }

  /**
   * Lines 118-122 in exact arithmetic: `dimension / 2 -+ dimension / (100 / fallback)`
   * is `dimension * (50 -+ fallback) / 100`, truncated toward zero by `int()`.
   */
  function FallbackRect(width: nat, height: nat, fallback: int): Rect
    requires fallback != 0
  {
    Rect(TruncDiv(width * (50 - fallback), 100), TruncDiv(height * (50 - fallback), 100),
         TruncDiv(width * (50 + fallback), 100), TruncDiv(height * (50 + fallback), 100))
  }

  /** For 1..50 percent the fallback span of a dimension lies inside it and is centred up to one pixel. */
  lemma {:induction false} FallbackSpanCentred(d: nat, f: int)
    requires 1 <= f <= 50
    ensures var lo, hi := TruncDiv(d * (50 - f), 100), TruncDiv(d * (50 + f), 100);
      0 <= lo <= hi <= d && (lo + hi == d || lo + hi == d - 1)
  {
    var a := d * (50 - f);
    var b := d * (50 + f);
    assert a >= 0 && b >= 0;
    assert a + b == 100 * d;
    assert a <= b by { assert b - a == 2 * (d * f); }
    var qa, ra := a / 100, a % 100;
    var qb, rb := b / 100, b % 100;
    assert a == 100 * qa + ra && b == 100 * qb + rb;
    assert ra + rb == 100 * (d - qa - qb);
    assert TruncDiv(a, 100) == qa && TruncDiv(b, 100) == qb;
  }

  lemma FallbackCentred(width: nat, height: nat, fallback: int)
    requires 1 <= fallback <= 50
    ensures var r := FallbackRect(width, height, fallback);
      && 0 <= r.x1 <= r.x2 <= width && 0 <= r.y1 <= r.y2 <= height
      && (r.x1 + r.x2 == width || r.x1 + r.x2 == width - 1)
      && (r.y1 + r.y2 == height || r.y1 + r.y2 == height - 1)
  {
    FallbackSpanCentred(width, fallback);
    FallbackSpanCentred(height, fallback);
  }

  /**
   * Past 50 percent the fallback span starts before the image and ends after
   * it, so the slice counts the start from the far edge: the crop keeps the
   * last columns only and is no longer centred.
   */
  lemma FallbackPastHalf(d: nat, f: int)
    requires f > 50 && d * (f - 50) >= 100
    ensures var lo, hi := TruncDiv(d * (50 - f), 100), TruncDiv(d * (50 + f), 100);
      && lo < 0 && hi > d
      && SliceRange(lo, hi, d) == Span(if d + lo < 0 then 0 else d + lo, d)
  {
    var a := d * (50 - f);
    var b := d * (50 + f);
    assert a == -(d * (f - 50));
    assert b == 100 * d + d * (f - 50);
    TruncDivBounds(a, 100);
    TruncDivBounds(b, 100);
  }

  lemma FallbackExamples()
    ensures FallbackRect(100, 100, 25) == Rect(25, 25, 75, 75)
    ensures FallbackRect(100, 100, 50) == Rect(0, 0, 100, 100)
    ensures FallbackRect(100, 100, 75) == Rect(-25, -25, 125, 125)
    ensures SliceRange(-25, 125, 100) == Span(75, 100)
  {
  }

  /** What `sqm` ends with. */
  datatype Outcome =
    | Sky(sqm: real)    // "Sky SQM is {sqm}"
    | EmptyCrop         // cv2.mean of an empty crop, left unspecified
    | ZeroDivision      // `100 / fallback` with fallback 0 on the fallback path, uncaught

  /** Lines 124 and 129: crop with Python slice rules, then average. */
  function MeanOver(img: Image, rect: Rect): (o: Outcome)
    requires img.Valid()
    ensures o != ZeroDivision
    ensures o.Sky? ==> 0.0 <= o.sqm <= 255.0
    ensures var rows, cols := SliceRange(rect.y1, rect.y2, img.height), SliceRange(rect.x1, rect.x2, img.width);
      o == EmptyCrop <==> rows.lo == rows.hi || cols.lo == cols.hi
  {
    var rows := SliceRange(rect.y1, rect.y2, img.height);
    var cols := SliceRange(rect.x1, rect.x2, img.width);
    if rows.lo == rows.hi || cols.lo == cols.hi then EmptyCrop
    else
      MeanInRange(img, rows, cols);
      Sky(CropMean(img, rows, cols))
  }

  /** Lines 79-81: the binning factor, 1 when AS_BIN is not set. */
  function Binning(asBin: Option<int>): int {
    asBin.GetOr(1)
  }

  /**
   * Lines 107-129 once the ROI setting is parsed: the parsed rectangle, or
   * the fallback one, cropped and averaged.
   */
  function Measure(img: Image, parsed: Option<Rect>, fallback: int): (o: Outcome)
    requires img.Valid()
    ensures o.Sky? ==> 0.0 <= o.sqm <= 255.0
    ensures o == ZeroDivision <==> parsed.None? && fallback == 0
  {
    match parsed
    case Some(rect) => MeanOver(img, rect)
    case None =>
      if fallback == 0 then ZeroDivision
      else MeanOver(img, FallbackRect(img.width, img.height, fallback))
  }

  /**
   * The value `sqm` computes from the gray image, the loaded mask (if any),
   * the ROI setting, the fallback percentage and the binning factor. The
   * debug flag is not among them: debug output never changes the result.
   */
  function SkyQuality(gray: Image, mask: Option<Image>, roi: string, fallback: int, binning: int): (o: Outcome)
    requires gray.Valid() && (mask.Some? ==> mask.value.Valid())
    ensures o.Sky? ==> 0.0 <= o.sqm <= 255.0
    ensures o == ZeroDivision <==> ParseRoi(roi, binning).None? && fallback == 0
  {
    Measure(ApplyMask(gray, mask), ParseRoi(roi, binning), fallback)
  }

  /** A ROI setting that does not parse gives what the fallback rectangle, written out, gives. */
  lemma FallbackIsExplicitRect(gray: Image, mask: Option<Image>, roi: string, fallback: int, binning: int)
    requires gray.Valid() && (mask.Some? ==> mask.value.Valid())
    requires ParseRoi(roi, binning).None? && fallback != 0
    ensures SkyQuality(gray, mask, roi, fallback, binning)
      == SkyQuality(gray, mask, RoiText(FallbackRect(gray.width, gray.height, fallback)), fallback, 1)
  {
    ParseRoiText(FallbackRect(gray.width, gray.height, fallback));
  }

  /** An all-255 mask changes nothing. */
  lemma FullMaskNoOp(gray: Image, mask: Image, roi: string, fallback: int, binning: int)
    requires gray.Valid() && mask.Valid() && SameShape(gray, mask) && AllPixels(mask, 255)
    ensures SkyQuality(gray, Some(mask), roi, fallback, binning) == SkyQuality(gray, None, roi, fallback, binning)
  {
    FullMaskKeepsImage(gray, mask);
  }

  /** A mask that does not have the image's shape is ignored. */
  lemma MismatchedMaskIgnored(gray: Image, mask: Image, roi: string, fallback: int, binning: int)
    requires gray.Valid() && mask.Valid() && !SameShape(gray, mask)
    ensures SkyQuality(gray, Some(mask), roi, fallback, binning) == SkyQuality(gray, None, roi, fallback, binning)
  {
  }

  lemma FlatImageMean(img: Image, rect: Rect, v: bv8)
    requires img.Valid() && AllPixels(img, v)
    ensures var o := MeanOver(img, rect); o.Sky? ==> o.sqm == v as real
  {
    var rows := SliceRange(rect.y1, rect.y2, img.height);
    var cols := SliceRange(rect.x1, rect.x2, img.width);
    if rows.lo < rows.hi && cols.lo < cols.hi {
      MeanOfFlatCrop(img, rows, cols, v);
    }
  }

  /** An all-0 mask of the right shape gives a mean of 0. */
  lemma EmptyMaskGivesZero(gray: Image, mask: Image, roi: string, fallback: int, binning: int)
    requires gray.Valid() && mask.Valid() && SameShape(gray, mask) && AllPixels(mask, 0)
    ensures var o := SkyQuality(gray, Some(mask), roi, fallback, binning); o.Sky? ==> o.sqm == 0.0
  {
    var img := ApplyMask(gray, Some(mask));
    EmptyMaskBlacksOut(gray, mask);
    match ParseRoi(roi, binning)
    case Some(rect) => FlatImageMean(img, rect, 0);
    case None =>
      if fallback != 0 {
        FlatImageMean(img, FallbackRect(img.width, img.height, fallback), 0);
      }
  }

  /** An image of one gray level `v` measures `v`, whatever the region. */
  lemma FlatImageSkyQuality(gray: Image, roi: string, fallback: int, binning: int, v: bv8)
    requires gray.Valid() && AllPixels(gray, v)
    ensures var o := SkyQuality(gray, None, roi, fallback, binning); o.Sky? ==> o.sqm == v as real
  {
    match ParseRoi(roi, binning)
    case Some(rect) => FlatImageMean(gray, rect, v);
    case None =>
      if fallback != 0 {
        FlatImageMean(gray, FallbackRect(gray.width, gray.height, fallback), v);
      }
  }

  /** A 100x100 image of gray level 50, no mask, no ROI, fallback 50: the whole image, SQM 50. */
  lemma FlatImageScenario(gray: Image)
    requires gray.Valid() && gray.height == 100 && gray.width == 100 && AllPixels(gray, 50)
    ensures SkyQuality(gray, None, "", 50, 1) == Sky(50.0)
  {
    ParseRoiEmpty(1);
    assert FallbackRect(100, 100, 50) == Rect(0, 0, 100, 100);
    FlatImageSkyQuality(gray, "", 50, 1, 50);
  }

  /** What `sqm` hands to the host along the way. */
  datatype Event =
    | DebugImage(file: string)             // s.writeDebugImage("allsky_sqm", file, image)
    | Log(level: int, message: Message)    // s.log(level, message)

  datatype Message =
    | MaskMismatch                 // "ERROR: Source image and mask dimensions do not match"
    | RoiInvalid(fallback: int)    // "ERROR: SQM ROI is invalid, falling back to {fallback}% of image"
    | RoiNotSet(fallback: int)     // "INFO: SQM ROI not set, falling back to {fallback}% of image"
    | MeanIs(sqm: real)            // "INFO: SQM Mean calculated as {sqm}"
    | MeanOfEmptyCrop              // the same line for an empty crop, whose value is left unspecified

  /** The two forms of the line-130 mean log. */
  predicate MeanMessage(m: Message) {
    m.MeanIs? || m.MeanOfEmptyCrop?
  }

  /** Lines 87-104: the mask's debug image, then the masked image's debug image or the mismatch log. */
  function MaskEvents(gray: Image, mask: Option<Image>, debug: bool): seq<Event> {
    (if mask.Some? && debug then [DebugImage("image-mask.png")] else [])
    + (if mask.Some? && SameShape(gray, mask.value) then
         (if debug then [DebugImage("masked-image.png")] else [Log(0, MaskMismatch)])
       else [])
  }

  /** Lines 113-117: the log line of the fallback path, none when the ROI setting parsed. */
  function RoiEvents(parsed: Option<Rect>, roi: string, fallback: int): seq<Event> {
    if parsed.Some? then []
    else if |roi| > 0 then [Log(0, RoiInvalid(fallback))]
    else [Log(1, RoiNotSet(fallback))]
  }

  /**
   * Lines 126-130: the crop's debug image and the mean's log line, which is
   * written whenever the crop stage is reached, an empty crop included.
   */
  function CropEvents(o: Outcome, debug: bool): (t: seq<Event>)
    ensures forall i :: 0 <= i < |t| ==> t[i].DebugImage? || MeanMessage(t[i].message)
    ensures !o.ZeroDivision? <==> |t| > 0 && t[|t| - 1].Log?
    ensures o.Sky? ==> t[|t| - 1] == Log(1, MeanIs(o.sqm))
    ensures o.EmptyCrop? ==> t[|t| - 1] == Log(1, MeanOfEmptyCrop)
  {
    var crop := if debug then [DebugImage("cropped-image.png")] else [];
    match o
    case ZeroDivision => []
    case EmptyCrop => crop + [Log(1, MeanOfEmptyCrop)]
    case Sky(v) => crop + [Log(1, MeanIs(v))]
  }

  /**
   * Everything `sqm` hands to the host, in order: mask events, ROI events,
   * then (unless `100 / fallback` raised) the crop's debug image and the
   * mean's log line.
   */
  function SqmEvents(gray: Image, mask: Option<Image>, roi: string, debug: bool, fallback: int, binning: int): seq<Event>
    requires gray.Valid() && (mask.Some? ==> mask.value.Valid())
  {
    MaskEvents(gray, mask, debug) + RoiEvents(ParseRoi(roi, binning), roi, fallback)
      + CropEvents(SkyQuality(gray, mask, roi, fallback, binning), debug)
  }

  /** The mismatch message is logged exactly when the mask fits the image and debug is off. */
  lemma MaskMismatchLogged(gray: Image, mask: Option<Image>, roi: string, debug: bool, fallback: int, binning: int)
    requires gray.Valid() && (mask.Some? ==> mask.value.Valid())
    ensures Log(0, MaskMismatch) in SqmEvents(gray, mask, roi, debug, fallback, binning)
      <==> mask.Some? && SameShape(gray, mask.value) && !debug
  {
    MaskMismatchIn(gray, mask, debug, ParseRoi(roi, binning), roi, fallback, SkyQuality(gray, mask, roi, fallback, binning));
  }

  lemma MaskMismatchIn(gray: Image, mask: Option<Image>, debug: bool, parsed: Option<Rect>, roi: string, fallback: int, o: Outcome)
    ensures Log(0, MaskMismatch) in MaskEvents(gray, mask, debug) + RoiEvents(parsed, roi, fallback) + CropEvents(o, debug)
      <==> mask.Some? && SameShape(gray, mask.value) && !debug
  {
    var m := MaskEvents(gray, mask, debug);
    var r := RoiEvents(parsed, roi, fallback);
    assert Log(0, MaskMismatch) !in r;
    NotInTail(m + r, CropEvents(o, debug), Log(0, MaskMismatch));
  }

  /** The fallback path logs one of its two messages, chosen by whether the setting is empty. */
  lemma RoiFallbackLogged(gray: Image, mask: Option<Image>, roi: string, debug: bool, fallback: int, binning: int)
    requires gray.Valid() && (mask.Some? ==> mask.value.Valid())
    ensures Log(0, RoiInvalid(fallback)) in SqmEvents(gray, mask, roi, debug, fallback, binning)
      <==> ParseRoi(roi, binning).None? && roi != ""
    ensures Log(1, RoiNotSet(fallback)) in SqmEvents(gray, mask, roi, debug, fallback, binning)
      <==> ParseRoi(roi, binning).None? && roi == ""
  {
    RoiFallbackIn(gray, mask, debug, ParseRoi(roi, binning), roi, fallback, SkyQuality(gray, mask, roi, fallback, binning));
  }

  lemma RoiFallbackIn(gray: Image, mask: Option<Image>, debug: bool, parsed: Option<Rect>, roi: string, fallback: int, o: Outcome)
    ensures var e := MaskEvents(gray, mask, debug) + RoiEvents(parsed, roi, fallback) + CropEvents(o, debug);
      && (Log(0, RoiInvalid(fallback)) in e <==> parsed.None? && roi != "")
      && (Log(1, RoiNotSet(fallback)) in e <==> parsed.None? && roi == "")
  {
    var m := MaskEvents(gray, mask, debug);
    var r := RoiEvents(parsed, roi, fallback);
    var t := CropEvents(o, debug);
    assert Log(0, RoiInvalid(fallback)) !in m && Log(1, RoiNotSet(fallback)) !in m;
    NotInTail(m + r, t, Log(0, RoiInvalid(fallback)));
    NotInTail(m + r, t, Log(1, RoiNotSet(fallback)));
  }

  /** The crop's events are debug images or the mean, never another of the messages. */
  lemma NotInTail(head: seq<Event>, t: seq<Event>, x: Event)
    requires x.Log? && !MeanMessage(x.message)
    requires forall i :: 0 <= i < |t| ==> t[i].DebugImage? || MeanMessage(t[i].message)
    ensures x in head + t <==> x in head
  {
    assert x !in t;
  }

  /** Without debug nothing but log lines reaches the host. */
  lemma NoDebugOnlyLogs(gray: Image, mask: Option<Image>, roi: string, fallback: int, binning: int)
    requires gray.Valid() && (mask.Some? ==> mask.value.Valid())
    ensures forall e :: e in SqmEvents(gray, mask, roi, false, fallback, binning) ==> e.Log?
  {
    OnlyLogsIn(gray, mask, ParseRoi(roi, binning), roi, fallback, SkyQuality(gray, mask, roi, fallback, binning));
  }

  lemma OnlyLogsIn(gray: Image, mask: Option<Image>, parsed: Option<Rect>, roi: string, fallback: int, o: Outcome)
    ensures forall e :: e in MaskEvents(gray, mask, false) + RoiEvents(parsed, roi, fallback) + CropEvents(o, false) ==> e.Log?
  {
    var m := MaskEvents(gray, mask, false);
    var r := RoiEvents(parsed, roi, fallback);
    var t := CropEvents(o, false);
    assert forall e :: e in m ==> e.Log?;
    assert forall e :: e in r ==> e.Log?;
    assert forall e :: e in t ==> e.Log?;
  }

  /**
   * The mean is logged, as the last event, exactly when the crop stage is
   * reached: with its value for a measured sky, and for an empty crop too.
   */
  lemma MeanLoggedLast(gray: Image, mask: Option<Image>, roi: string, debug: bool, fallback: int, binning: int)
    requires gray.Valid() && (mask.Some? ==> mask.value.Valid())
    ensures var o, e := SkyQuality(gray, mask, roi, fallback, binning), SqmEvents(gray, mask, roi, debug, fallback, binning);
      o.Sky? ==> e[|e| - 1] == Log(1, MeanIs(o.sqm))
    ensures var o, e := SkyQuality(gray, mask, roi, fallback, binning), SqmEvents(gray, mask, roi, debug, fallback, binning);
      o.EmptyCrop? ==> e[|e| - 1] == Log(1, MeanOfEmptyCrop)
    ensures var o, e := SkyQuality(gray, mask, roi, fallback, binning), SqmEvents(gray, mask, roi, debug, fallback, binning);
      forall i :: 0 <= i < |e| && e[i].Log? && MeanMessage(e[i].message) ==> !o.ZeroDivision? && i == |e| - 1
  {
    MeanLastIn(gray, mask, debug, ParseRoi(roi, binning), roi, fallback, SkyQuality(gray, mask, roi, fallback, binning));
  }

  lemma MeanLastIn(gray: Image, mask: Option<Image>, debug: bool, parsed: Option<Rect>, roi: string, fallback: int, o: Outcome)
    ensures var e := MaskEvents(gray, mask, debug) + RoiEvents(parsed, roi, fallback) + CropEvents(o, debug);
      && (o.Sky? ==> e[|e| - 1] == Log(1, MeanIs(o.sqm)))
      && (o.EmptyCrop? ==> e[|e| - 1] == Log(1, MeanOfEmptyCrop))
      && (forall i :: 0 <= i < |e| && e[i].Log? && MeanMessage(e[i].message) ==> !o.ZeroDivision? && i == |e| - 1)
  {
    var m := MaskEvents(gray, mask, debug);
    var r := RoiEvents(parsed, roi, fallback);
    var t := CropEvents(o, debug);
    var e := m + r + t;
    forall i | 0 <= i < |e| && e[i].Log? && MeanMessage(e[i].message) ensures !o.ZeroDivision? && i == |e| - 1 {
      assert i >= |m + r|;
      assert e[i] == t[i - |m + r|];
    }
  }

  function MaskOf(mask: Option<array2<bv8>>): (m: Option<Image>)
    reads if mask.Some? then {mask.value} else {}
    ensures m.Some? <==> mask.Some?
    ensures m.Some? ==> m.value == ImageOf(mask.value)
  {
    if mask.Some? then Some(ImageOf(mask.value)) else None
  }

  /** Line 100, `cv2.bitwise_and`, as a loop over the pixels into a new image. */
  method BitwiseAndImages(src1: array2<bv8>, src2: array2<bv8>) returns (dst: array2<bv8>)
    requires src1.Length0 == src2.Length0 && src1.Length1 == src2.Length1
    ensures fresh(dst)
    ensures ImageOf(dst) == BitwiseAnd(ImageOf(src1), ImageOf(src2))
  {
    var h, w := src1.Length0, src1.Length1;
    dst := new bv8[h, w];
    for i := 0 to h
      invariant forall r, c :: 0 <= r < i && 0 <= c < w ==> dst[r, c] == src1[r, c] & src2[r, c]
    {
      for j := 0 to w
        invariant forall r, c :: 0 <= r < i && 0 <= c < w ==> dst[r, c] == src1[r, c] & src2[r, c]
        invariant forall c :: 0 <= c < j ==> dst[i, c] == src1[i, c] & src2[i, c]
      {
        dst[i, j] := src1[i, j] & src2[i, j];
      }
    }
    SameImage(ImageOf(dst), BitwiseAnd(ImageOf(src1), ImageOf(src2)));
  }

  /** Line 129, `cv2.mean`, as a loop over the pixels of a non-empty crop. */
  method Mean(img: array2<bv8>, rows: Span, cols: Span) returns (m: real)
    requires rows.lo < rows.hi <= img.Length0 && cols.lo < cols.hi <= img.Length1
    ensures m == CropMean(ImageOf(img), rows, cols)
  {
    ghost var pic := ImageOf(img);
    var total: nat := 0;
    var r := rows.lo;
    while r < rows.hi
      invariant rows.lo <= r <= rows.hi
      invariant total == RectSum(pic, Span(rows.lo, r), cols)
    {
      var rowTotal: nat := 0;
      var c := cols.lo;
      while c < cols.hi
        invariant cols.lo <= c <= cols.hi
        invariant rowTotal == RowSum(pic.px[r], cols.lo, c)
      {
        rowTotal := rowTotal + img[r, c] as nat;
        c := c + 1;
      }
      total := total + rowTotal;
      r := r + 1;
    }
    m := total as real / Area(rows, cols) as real;
  }

  /** Lines 86-104 on decoded images: the mask's debug image, then the masked image when the shapes match. */
  method MaskImage(image: array2<bv8>, mask: Option<array2<bv8>>, debug: bool)
    returns (grayImage: array2<bv8>, events: seq<Event>)
    ensures grayImage.Length0 == image.Length0 && grayImage.Length1 == image.Length1
    ensures ImageOf(grayImage) == ApplyMask(ImageOf(image), MaskOf(mask))
    ensures events == MaskEvents(ImageOf(image), MaskOf(mask), debug)
  {
    events := [];
    if mask.Some? && debug {
      events := events + [DebugImage("image-mask.png")];
    }
    grayImage := image;
    if mask.Some? {
      var imageMask := mask.value;
      if image.Length0 == imageMask.Length0 && image.Length1 == imageMask.Length1 {
        grayImage := BitwiseAndImages(image, imageMask);
        if debug {
          events := events + [DebugImage("masked-image.png")];
        } else {
          events := events + [Log(0, MaskMismatch)];
        }
      }
    }
  }

  /** Lines 124-130: crop the gray image to `rect`, write its debug image, average it and log the mean. */
  method CropAndMeasure(grayImage: array2<bv8>, rect: Rect, debug: bool) returns (result: Outcome, events: seq<Event>)
    ensures result == MeanOver(ImageOf(grayImage), rect)
    ensures events == CropEvents(result, debug)
  {
    var rows := SliceRange(rect.y1, rect.y2, grayImage.Length0);
    var cols := SliceRange(rect.x1, rect.x2, grayImage.Length1);
    events := [];
    if debug {
      events := events + [DebugImage("cropped-image.png")];
    }
    if rows.lo == rows.hi || cols.lo == cols.hi {
      events := events + [Log(1, MeanOfEmptyCrop)];
      return EmptyCrop, events;
    }
    var sqmAvg := Mean(grayImage, rows, cols);
    events := events + [Log(1, MeanIs(sqmAvg))];
    result := Sky(sqmAvg);
  }

  /**
   * `sqm(params)` on an already decoded gray image: `mask` is the decoded mask
   * (None when the `mask` setting is empty), `asBin` the AS_BIN variable.
   * Returns the outcome and what the host is asked to log or store, in order.
   */
  method Sqm(image: array2<bv8>, mask: Option<array2<bv8>>, roi: string, debug: bool, fallback: int, asBin: Option<int>)
    returns (result: Outcome, events: seq<Event>)
    ensures result == SkyQuality(ImageOf(image), MaskOf(mask), roi, fallback, Binning(asBin))
    ensures events == SqmEvents(ImageOf(image), MaskOf(mask), roi, debug, fallback, Binning(asBin))
  {
    var binning := 1;
    if asBin.Some? {
      binning := asBin.value;
    }
    var grayImage, maskEvents := MaskImage(image, mask, debug);
    var imageHeight, imageWidth := grayImage.Length0, grayImage.Length1;
    var parsed := ParseRoi(roi, binning);
    var roiEvents := RoiEvents(parsed, roi, fallback);
    var rect: Rect;
    if parsed.Some? {
      rect := parsed.value;
    } else {
      if fallback == 0 {
        return ZeroDivision, maskEvents + roiEvents;
      }
      rect := FallbackRect(imageWidth, imageHeight, fallback);
    }
    var cropEvents;
    result, cropEvents := CropAndMeasure(grayImage, rect, debug);
    events := maskEvents + roiEvents + cropEvents;
  }
}
