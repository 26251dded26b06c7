/** The imaging side of the scripts, abstracted to what they observe: the pixel
    size of a decoded image, the bytes an encoder produces for a given format and
    target size (or the exception it raises), the aspect-ratio arithmetic, and the
    "try each setting until the output fits" searches. */
module Imaging {
  import opened Basics

  datatype Size = Size(width: nat, height: nat)

  /** An encoder setting: PNG with `optimize=True` and an optional
      `compress_level`, or JPEG with `optimize=True` at a quality. */
  datatype Format = Png(compressLevel: Option<nat>) | Jpeg(quality: nat)

  /** One `save` call: the format and the size the image was resized to first. */
  datatype Attempt = Attempt(format: Format, width: nat, height: nat)

  /** The imaging library as a parameter: `size` is what `Image.open(...).size`
      reports (None when the bytes do not decode), and `render` the bytes that
      saving the decoded source, resized to the attempt's size, produces (None
      when the library raises). */
  datatype Codec = Codec(size: Bytes -> Option<Size>, render: (Bytes, Attempt) -> Option<Bytes>)

  /** One resize-and-save. Pillow refuses to resize to a zero width or height,
      so such an attempt always raises. */
  function Encode(c: Codec, src: Bytes, a: Attempt): Option<Bytes> {
    if a.width == 0 || a.height == 0 then None else c.render(src, a)
  }

  /** `int(x * n / d)`: a side scaled by the ratio `n / d`, truncated. */
  function Ratio(x: nat, n: nat, d: nat): nat
    requires d > 0
  {
    x * n / d
  }

  /** `int(n * k / 10)` for a scale factor of `k` tenths. */
  function Scaled(n: nat, tenths: nat): nat {
    Ratio(n, tenths, 10)
  }

  /** How a size-constrained search ends: with the first output within the
      ceiling, with an exception (which the scripts turn into None), or with
      every setting tried and none small enough. */
  datatype Search = Fits(data: Bytes) | Failed | NoneFit

  /** The settings tried in order; the first output of at most `ceiling` bytes is kept. */
  function FirstFit(c: Codec, src: Bytes, attempts: seq<Attempt>, ceiling: nat): Search {
    if attempts == [] then NoneFit
    else match Encode(c, src, attempts[0])
      case None => Failed
      case Some(data) => if |data| <= ceiling then Fits(data) else FirstFit(c, src, attempts[1..], ceiling)
  }

  /** The first `n` settings all produced output, and all of it too large. */
  ghost predicate AllTooLarge(c: Codec, src: Bytes, attempts: seq<Attempt>, n: nat, ceiling: nat)
    requires n <= |attempts|
  {
    forall j :: 0 <= j < n ==> Encode(c, src, attempts[j]).Some? && |Encode(c, src, attempts[j]).value| > ceiling
  }

  lemma AllTooLargeTail(c: Codec, src: Bytes, attempts: seq<Attempt>, n: nat, ceiling: nat)
    requires 1 <= n <= |attempts|
    ensures AllTooLarge(c, src, attempts, n, ceiling) <==>
      Encode(c, src, attempts[0]).Some? && |Encode(c, src, attempts[0]).value| > ceiling && AllTooLarge(c, src, attempts[1..], n - 1, ceiling)
  {
    if Encode(c, src, attempts[0]).Some? && |Encode(c, src, attempts[0]).value| > ceiling && AllTooLarge(c, src, attempts[1..], n - 1, ceiling) {
      forall j | 0 <= j < n
        ensures Encode(c, src, attempts[j]).Some? && |Encode(c, src, attempts[j]).value| > ceiling
      {
        if j > 0 {
          assert attempts[j] == attempts[1..][j - 1];
        }
      }
    }
  }

  /** The search, stated without recursion: it keeps exactly the output of the
      first setting that fits when every earlier one was too large; it fails
      exactly when a setting raised before any fitted; and it finds nothing
      exactly when every setting produced output over the ceiling. */
  lemma {:induction false} FirstFitExact(c: Codec, src: Bytes, attempts: seq<Attempt>, ceiling: nat)
    ensures var r := FirstFit(c, src, attempts, ceiling);
      && (r.Fits? ==> exists i :: (0 <= i < |attempts| && AllTooLarge(c, src, attempts, i, ceiling)
            && Encode(c, src, attempts[i]) == Some(r.data) && |r.data| <= ceiling))
      && (forall i :: 0 <= i < |attempts| && AllTooLarge(c, src, attempts, i, ceiling)
            && Encode(c, src, attempts[i]).Some? && |Encode(c, src, attempts[i]).value| <= ceiling
            ==> r == Fits(Encode(c, src, attempts[i]).value))
      && (r.Failed? <==> exists i :: 0 <= i < |attempts| && AllTooLarge(c, src, attempts, i, ceiling) && Encode(c, src, attempts[i]) == None)
      && (r.NoneFit? <==> AllTooLarge(c, src, attempts, |attempts|, ceiling))
  {
    var r := FirstFit(c, src, attempts, ceiling);
    if attempts == [] {
    } else {
      FirstFitExact(c, src, attempts[1..], ceiling);
      var t := attempts[1..];
      AllTooLargeTail(c, src, attempts, |attempts|, ceiling);
      assert |t| == |attempts| - 1;
      forall i | 1 <= i <= |attempts|
        ensures AllTooLarge(c, src, attempts, i, ceiling) <==>
          Encode(c, src, attempts[0]).Some? && |Encode(c, src, attempts[0]).value| > ceiling && AllTooLarge(c, src, t, i - 1, ceiling)
      {
        AllTooLargeTail(c, src, attempts, i, ceiling);
      }
      assert AllTooLarge(c, src, attempts, 0, ceiling);
      match Encode(c, src, attempts[0])
      case None =>
        assert AllTooLarge(c, src, attempts, 0, ceiling) && Encode(c, src, attempts[0]) == None;
        assert !AllTooLarge(c, src, attempts, |attempts|, ceiling);
        forall i | 0 <= i < |attempts| && AllTooLarge(c, src, attempts, i, ceiling) ensures i == 0 { }
      case Some(d) =>
        if |d| <= ceiling {
          assert !AllTooLarge(c, src, attempts, |attempts|, ceiling);
          forall i | 0 <= i < |attempts| && AllTooLarge(c, src, attempts, i, ceiling) ensures i == 0 { }
        } else {
          assert r == FirstFit(c, src, t, ceiling);
          if r.Fits? {
            var i :| 0 <= i < |t| && AllTooLarge(c, src, t, i, ceiling) && Encode(c, src, t[i]) == Some(r.data) && |r.data| <= ceiling;
            assert attempts[i + 1] == t[i];
          }
          if r.Failed? {
            var i :| 0 <= i < |t| && AllTooLarge(c, src, t, i, ceiling) && Encode(c, src, t[i]) == None;
            assert attempts[i + 1] == t[i];
          }
          forall i | 0 <= i < |attempts| && AllTooLarge(c, src, attempts, i, ceiling) && i > 0
            ensures AllTooLarge(c, src, t, i - 1, ceiling) && attempts[i] == t[i - 1]
          {
          }
          forall i | 0 <= i < |attempts| && AllTooLarge(c, src, attempts, i, ceiling) && i == 0
            ensures Encode(c, src, attempts[i]) == Some(d)
          {
          }
        }
    }
  }

  /** Searching two lists one after the other is searching their concatenation:
      the second list is consulted only when nothing in the first fitted or raised. */
  lemma {:induction false} FirstFitAppend(c: Codec, src: Bytes, a: seq<Attempt>, b: seq<Attempt>, ceiling: nat)
    ensures FirstFit(c, src, a + b, ceiling) == if FirstFit(c, src, a, ceiling).NoneFit? then FirstFit(c, src, b, ceiling) else FirstFit(c, src, a, ceiling)
  {
    if a == [] {
      assert a + b == b;
    } else {
      assert (a + b)[0] == a[0] && (a + b)[1..] == a[1..] + b;
      FirstFitAppend(c, src, a[1..], b, ceiling);
    }
  }

  /** Raising the ceiling never makes the search give up later: when the search
      under `low` keeps setting `j`, the search under a ceiling `high` of at
      least `low` also keeps an output, that of a setting no later than `j`. */
  lemma FirstFitMonotone(c: Codec, src: Bytes, attempts: seq<Attempt>, low: nat, high: nat, j: nat)
    requires low <= high && j < |attempts|
    requires AllTooLarge(c, src, attempts, j, low)
    requires Encode(c, src, attempts[j]).Some? && |Encode(c, src, attempts[j]).value| <= low
    ensures FirstFit(c, src, attempts, low) == Fits(Encode(c, src, attempts[j]).value)
    ensures FirstFit(c, src, attempts, high).Fits?
    ensures exists i :: (0 <= i <= j && AllTooLarge(c, src, attempts, i, high)
      && Encode(c, src, attempts[i]) == Some(FirstFit(c, src, attempts, high).data))
  {
    FirstFitAt(c, src, attempts, low, j);
    var i := 0;
    while i < j && |Encode(c, src, attempts[i]).value| > high
      invariant 0 <= i <= j
      invariant AllTooLarge(c, src, attempts, i, high)
    {
      i := i + 1;
    }
    FirstFitAt(c, src, attempts, high, i);
  }

  /** The search keeps the first setting that fits after only settings too large. */
  lemma FirstFitAt(c: Codec, src: Bytes, attempts: seq<Attempt>, ceiling: nat, i: nat)
    requires i < |attempts| && AllTooLarge(c, src, attempts, i, ceiling)
    requires Encode(c, src, attempts[i]).Some? && |Encode(c, src, attempts[i]).value| <= ceiling
    ensures FirstFit(c, src, attempts, ceiling) == Fits(Encode(c, src, attempts[i]).value)
  {
    FirstFitExact(c, src, attempts, ceiling);
  }

  /** The output kept by a search is never larger than the ceiling, and it is
      the output of one of the settings tried. */
  lemma FitsWithinCeiling(c: Codec, src: Bytes, attempts: seq<Attempt>, ceiling: nat)
    requires FirstFit(c, src, attempts, ceiling).Fits?
    ensures |FirstFit(c, src, attempts, ceiling).data| <= ceiling
    ensures exists i :: 0 <= i < |attempts| && Encode(c, src, attempts[i]) == Some(FirstFit(c, src, attempts, ceiling).data)
  {
    FirstFitExact(c, src, attempts, ceiling);
  }

  /** The target size of `upscale_image`: the source scaled so that it fits the
      `target` box, keeping the aspect ratio with each derived side truncated.
      A zero height (and, for a portrait source, a zero width) divides by zero. */
  function FitBox(s: Size, target: Size): Option<Size> {
    if s.height == 0 then None
    else if s.width >= s.height then
      var w := Min(target.width, Ratio(target.height, s.width, s.height));
      Some(Size(w, Ratio(w, s.height, s.width)))
    else if s.width == 0 then None
    else
      var h := Min(target.height, Ratio(target.width, s.height, s.width));
      Some(Size(Ratio(h, s.width, s.height), h))
  }

  function Min(a: nat, b: nat): nat {
    if a <= b then a else b
  }

  lemma MulMonotone(x: nat, y: nat, z: nat)
    requires x <= y
    ensures x * z <= y * z && z * x <= z * y
  {
    assert y * z == x * z + (y - x) * z;
  }

  /** Scaling by at most ten tenths never enlarges a side. */
  lemma ScaledAtMost(s: Size, tenths: nat)
    requires tenths <= 10
    ensures Scaled(s.width, tenths) <= s.width && Scaled(s.height, tenths) <= s.height
  {
    MulMonotone(tenths, 10, s.width);
    MulMonotone(tenths, 10, s.height);
    FloorBound(s.width + 1, s.width, tenths, 10);
    FloorBound(s.height + 1, s.height, tenths, 10);
  }

  /** A larger scale never gives a smaller side. */
  lemma ScaledMonotone(n: nat, lo: nat, hi: nat)
    requires lo <= hi
    ensures Scaled(n, lo) <= Scaled(n, hi)
  {
    MulMonotone(lo, hi, n);
    FloorBound(Scaled(n, lo), n, lo, 10);
    FloorBound(Scaled(n, lo), n, hi, 10);
  }

  /** `x <= Ratio(y, n, d)` exactly when `x * d <= y * n`. */
  lemma FloorBound(x: nat, y: nat, n: nat, d: nat)
    requires d > 0
    ensures x <= Ratio(y, n, d) <==> x * d <= y * n
  {
    var q := Ratio(y, n, d);
    assert y * n == q * d + (y * n) % d;
    if x <= q {
      assert x * d <= q * d;
    } else {
      assert x >= q + 1;
      assert x * d >= (q + 1) * d;
    }
  }

  /** The sizes `upscale_image` computes for a landscape or square source. */
  lemma FitBoxLandscape(s: Size, target: Size)
    requires s.width >= s.height > 0
    ensures FitBox(s, target).Some?
    ensures var r := FitBox(s, target).value;
      && r.width == Min(target.width, Ratio(target.height, s.width, s.height))
      && r.width <= target.width && r.height <= target.height
      && r.height * s.width <= r.width * s.height < (r.height + 1) * s.width
  {
    var w := Min(target.width, Ratio(target.height, s.width, s.height));
    var h := Ratio(w, s.height, s.width);
    FloorBound(h, w, s.height, s.width);
    FloorBound(h + 1, w, s.height, s.width);
    FloorBound(w, target.height, s.width, s.height);
    FloorBound(target.height + 1, w, s.height, s.width);
  }

  /** The sizes `upscale_image` computes for a portrait source. */
  lemma FitBoxPortrait(s: Size, target: Size)
    requires 0 < s.width < s.height
    ensures FitBox(s, target).Some?
    ensures var r := FitBox(s, target).value;
      && r.height == Min(target.height, Ratio(target.width, s.height, s.width))
      && r.width <= target.width && r.height <= target.height
      && r.width * s.height <= r.height * s.width < (r.width + 1) * s.height
  {
    var h := Min(target.height, Ratio(target.width, s.height, s.width));
    var w := Ratio(h, s.width, s.height);
    FloorBound(w, h, s.width, s.height);
    FloorBound(w + 1, h, s.width, s.height);
    FloorBound(h, target.width, s.height, s.width);
    FloorBound(target.width + 1, h, s.width, s.height);
  }

  /** `upscale_image` sizes: defined exactly for sources with both sides
      non-zero; the result lies inside the target box; the side of the box that
      binds the source's longer side is reached; and the other side is the
      source's aspect ratio applied and truncated. */
  lemma FitBoxBounds(s: Size, target: Size)
    ensures FitBox(s, target).Some? <==> s.width > 0 && s.height > 0
    ensures FitBox(s, target).Some? ==>
      FitBox(s, target).value.width <= target.width && FitBox(s, target).value.height <= target.height
  {
    if s.width >= s.height > 0 {
      FitBoxLandscape(s, target);
    } else if 0 < s.width < s.height {
      FitBoxPortrait(s, target);
    }
  }

  /** With the square box the scripts pass, the longer side of the result is
      always exactly the box side: small thumbnails are enlarged, large ones shrunk. */
  lemma FitBoxSquare(s: Size, side: nat)
    requires s.width > 0 && s.height > 0
    ensures FitBox(s, Size(side, side)).Some?
    ensures s.width >= s.height ==> FitBox(s, Size(side, side)).value.width == side
    ensures s.width < s.height ==> FitBox(s, Size(side, side)).value.height == side
  {
    if s.width >= s.height {
      FloorBound(side, side, s.width, s.height);
      assert side * s.height <= side * s.width;
    } else {
      FloorBound(side, side, s.height, s.width);
      assert side * s.width <= side * s.height;
    }
  }
}
