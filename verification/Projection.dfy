/** Fitting the display into the video without changing its shape, in exact arithmetic. */
module Projection {

  datatype Rect = Rect(left: nat, top: nat, right: nat, bottom: nat)

  /** `q` is a / b rounded down. */
  predicate Quotient(a: int, b: int, q: int) { q * b <= a < (q + 1) * b }

  lemma Associative(x: real, y: real, z: real)
    ensures (x * y) * z == x * (y * z)
  {
  }

  lemma Cancel(x: real, y: real)
    requires y != 0.0
    ensures (x / y) * y == x
  {
  }

  lemma TimesRatio(n: real, a: real, b: real)
    requires b > 0.0
    ensures (n * (a / b)) * b == n * a
  {
    Associative(n, a / b, b);
    Cancel(a, b);
  }

  lemma OverRatio(n: real, a: real, b: real)
    requires a > 0.0 && b > 0.0 && b / a != 0.0
    ensures (n / (b / a)) * b == n * a
  {
    var ratio := b / a;
    var x := n / ratio;
    Cancel(b, a);
    Cancel(n, ratio);
    Associative(x, ratio, a);
  }

  lemma Times(x: real, y: real, b: real)
    requires b > 0.0
    ensures x <= y ==> x * b <= y * b
    ensures x < y ==> x * b < y * b
  {
  }

  lemma IntProduct(x: int, y: int)
    ensures (x * y) as real == x as real * y as real
  {
  }

  lemma FloorBounds(x: real)
    ensures x.Floor as real <= x < (x.Floor + 1) as real
  {
  }

  lemma RealOrder(a: int, b: int)
    ensures a as real <= b as real <==> a <= b
    ensures a as real < b as real <==> a < b
  {
  }

  /** The integer part of x is the quotient of x * b by b. */
  lemma FloorOfScaled(x: real, n: nat, a: nat, b: nat)
    requires b > 0 && x * b as real == n as real * a as real
    ensures Quotient(n * a, b, x.Floor)
  {
    var q := x.Floor;
    FloorBounds(x);
    Times(q as real, x, b as real);
    Times(x, (q + 1) as real, b as real);
    IntProduct(n, a);
    IntProduct(q, b);
    IntProduct(q + 1, b);
    RealOrder(q * b, n * a);
    RealOrder(n * a, (q + 1) * b);
  }

  lemma Product(x: int, y: int, b: nat)
    requires x <= y
    ensures x * b <= y * b
  {
  }

  /** The quotient is below an integer exactly if the dividend is below that many divisors. */
  lemma QuotientFits(a: int, b: nat, q: int, limit: int)
    requires b > 0 && Quotient(a, b, q)
    ensures q < limit <==> a < limit * b
    ensures a >= 0 ==> q >= 0
  {
    if q < limit {
      Product(q + 1, limit, b);
    } else {
      Product(limit, q, b);
    }
    if q < 0 {
      Product(q + 1, 0, b);
    }
  }

  /** A product and a quotient with the aspect ratio, truncated. */
  method TimesAspect(n: nat, a: nat, b: nat) returns (q: nat)
    requires a > 0 && b > 0
    ensures Quotient(n * a, b, q)
  {
    var x := n as real * (a as real / b as real);
    TimesRatio(n as real, a as real, b as real);
    FloorOfScaled(x, n, a, b);
    QuotientFits(n * a, b, x.Floor, 0);
    q := x.Floor;
  }

  method DividedByAspect(n: nat, a: nat, b: nat) returns (q: nat)
    requires a > 0 && b > 0
    ensures Quotient(n * b, a, q)
  {
    var x := n as real / (a as real / b as real);
    OverRatio(n as real, b as real, a as real);
    FloorOfScaled(x, n, b, a);
    QuotientFits(n * b, a, x.Floor, 0);
    q := x.Floor;
  }

  /** The size of the display in the video. */
  ghost predicate Fitted(viewWidth: nat, viewHeight: nat, w: nat, h: nat, outWidth: nat, outHeight: nat) {
    if w * viewHeight < h * viewWidth then outWidth == w && Quotient(w * viewHeight, viewWidth, outHeight)
    else outHeight == h && Quotient(h * viewWidth, viewHeight, outWidth)
  }

  method FitSize(viewWidth: nat, viewHeight: nat, videoWidth: nat, videoHeight: nat)
    returns (outWidth: nat, outHeight: nat)
    requires viewWidth > 0 && viewHeight > 0
    ensures outWidth <= videoWidth && outHeight <= videoHeight
    ensures Fitted(viewWidth, viewHeight, videoWidth, videoHeight, outWidth, outHeight)
  {
    var scaled := TimesAspect(videoWidth, viewHeight, viewWidth);
    QuotientFits(videoWidth * viewHeight, viewWidth, scaled, videoHeight);
    if videoHeight > scaled {
      outWidth := videoWidth;
      outHeight := scaled;
    } else {
      outHeight := videoHeight;
      outWidth := DividedByAspect(videoHeight, viewHeight, viewWidth);
      QuotientFits(videoHeight * viewWidth, viewHeight, outWidth, videoWidth + 1);
    }
  }

  /** The rectangle lies inside the video, so no unsigned subtraction wraps. It fills the axis on which
      the display is relatively longer, the other axis has the exact size rounded down, and it is
      centred to within a pixel. */
  method SetDisplayProjection(viewWidth: nat, viewHeight: nat, gVideoWidth: nat, gVideoHeight: nat, gRotate: bool)
    returns (r: Rect)
    requires viewWidth > 0 && viewHeight > 0
    ensures var w := if gRotate then gVideoHeight else gVideoWidth;
            var h := if gRotate then gVideoWidth else gVideoHeight;
            && r.left <= r.right <= w && r.top <= r.bottom <= h
            && 0 <= (w - r.right) - r.left <= 1 && 0 <= (h - r.bottom) - r.top <= 1
            && Fitted(viewWidth, viewHeight, w, h, r.right - r.left, r.bottom - r.top)
  {
    var videoWidth, videoHeight;
    if !gRotate {
      videoWidth := gVideoWidth;
      videoHeight := gVideoHeight;
    } else {
      videoWidth := gVideoHeight;
      videoHeight := gVideoWidth;
    }
    var outWidth, outHeight := FitSize(viewWidth, viewHeight, videoWidth, videoHeight);
    var offX := (videoWidth - outWidth) / 2;
    var offY := (videoHeight - outHeight) / 2;
    r := Rect(offX, offY, offX + outWidth, offY + outHeight);
  }
}
