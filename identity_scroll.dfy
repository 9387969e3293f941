/** The scroll-to-frame animator (`IdentityScroll` and its `OverlaySystem`).
    Scroll progress in [0,1] is mapped to a frame index in 1..240; a change
    of index updates `currentFrame` and, once the frames are loaded, asks for
    a draw on the next animation frame. Drawing cover-fits the image to the
    canvas. Four overlay stages and the canvas exit fade are keyframe tables
    over the same progress value.

    Arithmetic is exact (`real`), not IEEE floating point. The tables are
    evaluated with `Interpolate`, which stands for framer-motion's
    `useTransform`: clamped, piecewise-linear interpolation. */
module IdentityScroll {
  import opened Wrappers

  // ---------------------------------------------------------------------
  // Keyframe interpolation (the assumed `useTransform`)
  // ---------------------------------------------------------------------

  predicate StrictlyIncreasing(xs: seq<real>) {
    forall i, j :: 0 <= i < j < |xs| ==> xs[i] < xs[j]
  }

  /** A keyframe table: strictly increasing breakpoints and one output value
      per breakpoint, at least two of each. */
  datatype Keyframes = Keyframes(at: seq<real>, values: seq<real>) {
    predicate WellFormed() {
      |at| == |values| >= 2 && StrictlyIncreasing(at)
    }
  }

  /** Clamped piecewise-linear interpolation: below the first breakpoint the
      first value, above the last the last value, in between the straight line
      through the two surrounding keyframes. */
  function Interpolate(xs: seq<real>, ys: seq<real>, p: real): real
    requires |xs| == |ys| >= 2 && StrictlyIncreasing(xs)
    decreases |xs|
  {
    if p <= xs[0] then ys[0]
    else if p <= xs[1] then ys[0] + (ys[1] - ys[0]) * (p - xs[0]) / (xs[1] - xs[0])
    else if |xs| == 2 then ys[1]
    else Interpolate(xs[1..], ys[1..], p)
  }

  function Sample(k: Keyframes, p: real): real
    requires k.WellFormed()
  {
    Interpolate(k.at, k.values, p)
  }

  /** At each breakpoint the interpolation takes exactly that keyframe's value. */
  lemma {:induction false} InterpolateAtBreakpoint(xs: seq<real>, ys: seq<real>, k: nat)
    requires |xs| == |ys| >= 2 && StrictlyIncreasing(xs) && k < |xs|
    ensures Interpolate(xs, ys, xs[k]) == ys[k]
    decreases |xs|
  {
    if k >= 2 {
      assert xs[1] < xs[k];
      InterpolateAtBreakpoint(xs[1..], ys[1..], k - 1);
    } else if k == 1 {
      var d := xs[1] - xs[0];
      assert d > 0.0;
      SelfRatio(d);
      ScaleByRatio(ys[1] - ys[0], d, d);
      assert Interpolate(xs, ys, xs[1]) == ys[0] + (ys[1] - ys[0]) * d / d;
    }
  }

  /** Beyond the last breakpoint the interpolation holds the last value. */
  lemma {:induction false} InterpolateClampsHigh(xs: seq<real>, ys: seq<real>, p: real)
    requires |xs| == |ys| >= 2 && StrictlyIncreasing(xs) && p >= xs[|xs| - 1]
    ensures Interpolate(xs, ys, p) == ys[|ys| - 1]
    decreases |xs|
  {
    assert xs[0] < xs[|xs| - 1];
    if |xs| > 2 {
      assert xs[1] < xs[|xs| - 1];
      InterpolateClampsHigh(xs[1..], ys[1..], p);
    } else if p == xs[1] {
      ScaleByRatio(ys[1] - ys[0], p - xs[0], xs[1] - xs[0]);
      assert (p - xs[0]) / (xs[1] - xs[0]) == 1.0;
    }
  }

  /** The interpolated value stays within any bounds that hold every keyframe
      value (so opacities given in [0,1] stay in [0,1]). */
  lemma {:induction false} InterpolateBounded(xs: seq<real>, ys: seq<real>, p: real, lo: real, hi: real)
    requires |xs| == |ys| >= 2 && StrictlyIncreasing(xs)
    requires forall i :: 0 <= i < |ys| ==> lo <= ys[i] <= hi
    ensures lo <= Interpolate(xs, ys, p) <= hi
    decreases |xs|
  {
    assert lo <= ys[0] <= hi && lo <= ys[1] <= hi;
    if p <= xs[0] {
      assert Interpolate(xs, ys, p) == ys[0];
    } else if p <= xs[1] {
      var t := (p - xs[0]) / (xs[1] - xs[0]);
      RatioInUnit(p - xs[0], xs[1] - xs[0]);
      ScaleByRatio(ys[1] - ys[0], p - xs[0], xs[1] - xs[0]);
      assert Interpolate(xs, ys, p) == ys[0] + (ys[1] - ys[0]) * t;
      LineBetween(ys[0], ys[1], t);
    } else if |xs| == 2 {
      assert Interpolate(xs, ys, p) == ys[1];
    } else {
      var xs', ys' := xs[1..], ys[1..];
      assert StrictlyIncreasing(xs');
      assert forall i :: 0 <= i < |ys'| ==> ys'[i] == ys[i + 1];
      InterpolateBounded(xs', ys', p, lo, hi);
      assert Interpolate(xs, ys, p) == Interpolate(xs', ys', p);
    }
  }

  lemma SelfRatio(d: real)
    requires d != 0.0
    ensures d / d == 1.0
  {
  }

  /** A positive quotient of a number by one at least as large is in (0,1]. */
  lemma RatioInUnit(num: real, den: real)
    requires 0.0 < num <= den
    ensures 0.0 < num / den <= 1.0
  {
    assert num / den * den == num;
  }

  /** Scaling before or after the division is the same. */
  lemma ScaleByRatio(d: real, a: real, b: real)
    requires b != 0.0
    ensures d * a / b == d * (a / b)
  {
    var q := a / b;
    assert q * b == a;
    assert d * a == (d * q) * b;
  }

  /** A point on the segment from `a` to `b` lies between them. */
  lemma LineBetween(a: real, b: real, t: real)
    requires 0.0 <= t <= 1.0
    ensures a <= b ==> a <= a + (b - a) * t <= b
    ensures b <= a ==> b <= a + (b - a) * t <= a
  {
    if a <= b {
      assert (b - a) * t <= (b - a) * 1.0;
    } else {
      assert (a - b) * t <= (a - b) * 1.0;
    }
  }

  // ---------------------------------------------------------------------
  // Scroll progress to frame index
  // ---------------------------------------------------------------------

  /** The last frame index the animator maps to and accepts. */
  const LAST_FRAME: int := 240

  /** `useTransform(scrollYProgress, [0, 1], [1, 240])`. */
  const FrameTable := Keyframes([0.0, 1.0], [1.0, LAST_FRAME as real])

  /** JavaScript's `Math.round`: the nearest integer, halves rounding up. */
  function RoundHalfUp(x: real): (r: int)
    ensures (r as real) - 0.5 <= x < (r as real) + 0.5
  {
    (x + 0.5).Floor
  }

  /** `Math.round(frameIndex.get())` for scroll progress `p`. */
  function FrameIndex(p: real): int {
    RoundHalfUp(Sample(FrameTable, p))
  }

  /** The mapping is the clamped line `1 + 239 p`. */
  lemma FrameTableIsLine(p: real)
    ensures Sample(FrameTable, p) == 1.0 + 239.0 * Clamp01(p)
  {
  }

  function Clamp01(p: real): real {
    if p < 0.0 then 0.0 else if p > 1.0 then 1.0 else p
  }

  /** Every progress value, in range or not, gives a frame of the sequence;
      the ends of the scroll give the first and the last frame. */
  lemma FrameIndexInRange(p: real)
    ensures 1 <= FrameIndex(p) <= LAST_FRAME
    ensures p <= 0.0 ==> FrameIndex(p) == 1
    ensures p >= 1.0 ==> FrameIndex(p) == LAST_FRAME
  {
    FrameTableIsLine(p);
  }

  /** Scrolling further never goes back in the sequence; scrolling back walks
      the index back through the same values. */
  lemma FrameIndexMonotone(p1: real, p2: real)
    requires p1 <= p2
    ensures FrameIndex(p1) <= FrameIndex(p2)
  {
    FrameTableIsLine(p1);
    FrameTableIsLine(p2);
    assert Clamp01(p1) <= Clamp01(p2);
    FloorMonotone(Sample(FrameTable, p1) + 0.5, Sample(FrameTable, p2) + 0.5);
  }

  lemma FloorMonotone(x: real, y: real)
    requires x <= y
    ensures x.Floor <= y.Floor
  {
  }

  // ---------------------------------------------------------------------
  // Cover-fit geometry of `drawImage`
  // ---------------------------------------------------------------------

  /** The rectangle passed to `ctx.drawImage`. */
  datatype Rect = Rect(offsetX: real, offsetY: real, drawWidth: real, drawHeight: real)

  /** `imgRatio > canvasRatio` as JavaScript evaluates it: a zero canvas
      height makes `canvasRatio` infinite or NaN, and the comparison false. */
  predicate WiderThanCanvas(canvasW: real, canvasH: real, imgW: real, imgH: real)
    requires imgH > 0.0
  {
    canvasH > 0.0 && imgW / imgH > canvasW / canvasH
  }

  /** The cover-fit computation of `drawImage`: fit the canvas height and
      centre horizontally when the image is relatively wider, otherwise fit
      the canvas width and centre vertically. */
  function CoverFit(canvasW: real, canvasH: real, imgW: real, imgH: real): Rect
    requires canvasW >= 0.0 && canvasH >= 0.0 && imgW > 0.0 && imgH > 0.0
  {
    var imgRatio := imgW / imgH;
    if WiderThanCanvas(canvasW, canvasH, imgW, imgH) then
      var drawHeight := canvasH;
      var drawWidth := drawHeight * imgRatio;
      Rect((canvasW - drawWidth) / 2.0, 0.0, drawWidth, drawHeight)
    else
      var drawWidth := canvasW;
      var drawHeight := drawWidth / imgRatio;
      Rect(0.0, (canvasH - drawHeight) / 2.0, drawWidth, drawHeight)
  }

  /** On a canvas of positive size the drawn rectangle keeps the image's
      aspect ratio, covers the canvas on both axes, is centred on it, and
      overflows it on one axis: one offset is 0 and the other is <= 0. */
  lemma CoverFitCovers(canvasW: real, canvasH: real, imgW: real, imgH: real)
    requires canvasW > 0.0 && canvasH > 0.0 && imgW > 0.0 && imgH > 0.0
    ensures var r := CoverFit(canvasW, canvasH, imgW, imgH);
      && r.drawWidth * imgH == r.drawHeight * imgW
      && r.drawWidth >= canvasW && r.drawHeight >= canvasH
      && ((r.offsetX == 0.0 && r.offsetY <= 0.0) || (r.offsetY == 0.0 && r.offsetX <= 0.0))
      && r.offsetX + r.drawWidth / 2.0 == canvasW / 2.0
      && r.offsetY + r.drawHeight / 2.0 == canvasH / 2.0
  {
    if WiderThanCanvas(canvasW, canvasH, imgW, imgH) {
      FitHeightCovers(canvasW, canvasH, imgW, imgH);
    } else {
      FitWidthCovers(canvasW, canvasH, imgW, imgH);
    }
  }

  /** The relatively wider image is scaled to the canvas height. */
  lemma FitHeightCovers(canvasW: real, canvasH: real, imgW: real, imgH: real)
    requires canvasW > 0.0 && canvasH > 0.0 && imgW > 0.0 && imgH > 0.0
    requires WiderThanCanvas(canvasW, canvasH, imgW, imgH)
    ensures var w := canvasH * (imgW / imgH);
      w * imgH == canvasH * imgW && w >= canvasW
  {
    var ratio := imgW / imgH;
    assert ratio * imgH == imgW;
    assert canvasH * ratio > canvasH * (canvasW / canvasH);
    assert canvasH * (canvasW / canvasH) == canvasW;
    assert canvasH * ratio * imgH == canvasH * (ratio * imgH);
  }

  /** The relatively taller image is scaled to the canvas width. */
  lemma FitWidthCovers(canvasW: real, canvasH: real, imgW: real, imgH: real)
    requires canvasW > 0.0 && canvasH > 0.0 && imgW > 0.0 && imgH > 0.0
    requires !WiderThanCanvas(canvasW, canvasH, imgW, imgH)
    ensures var h := canvasW / (imgW / imgH);
      canvasW * imgH == h * imgW && h >= canvasH
  {
    var ratio := imgW / imgH;
    assert ratio * imgH == imgW;
    assert ratio <= canvasW / canvasH;
    DivideByLarger(canvasW, ratio, canvasW / canvasH);
    assert canvasW / (canvasW / canvasH) == canvasH;
    assert (canvasW / ratio) * ratio == canvasW;
    assert (canvasW / ratio) * imgW == (canvasW / ratio) * (ratio * imgH);
  }

  lemma DivideByLarger(a: real, b: real, c: real)
    requires a > 0.0 && 0.0 < b <= c
    ensures a / b >= a / c
  {
    assert a / b * b == a;
    assert a / c * c == a;
  }

  // ---------------------------------------------------------------------
  // Overlay stages and the exit fade
  // ---------------------------------------------------------------------

  /** One overlay stage: its opacity table and its vertical-offset table. */
  datatype Stage = Stage(opacity: Keyframes, y: Keyframes)

  /** Stage 1, Identity. */
  const Stage1 := Stage(Keyframes([0.0, 0.1, 0.2], [1.0, 1.0, 0.0]),
                        Keyframes([0.0, 0.2], [0.0, -50.0]))
  /** Stage 2, skills. */
  const Stage2 := Stage(Keyframes([0.2, 0.3, 0.4, 0.5], [0.0, 1.0, 1.0, 0.0]),
                        Keyframes([0.2, 0.3, 0.5], [50.0, 0.0, -50.0]))
  /** Stage 3, experience. */
  const Stage3 := Stage(Keyframes([0.5, 0.6, 0.7, 0.8], [0.0, 1.0, 1.0, 0.0]),
                        Keyframes([0.5, 0.6, 0.8], [50.0, 0.0, -50.0]))
  /** Stage 4, reassembly. */
  const Stage4 := Stage(Keyframes([0.8, 0.9, 0.95, 1.0], [0.0, 1.0, 1.0, 0.0]),
                        Keyframes([0.8, 0.9], [50.0, 0.0]))

  const Stages: seq<Stage> := [Stage1, Stage2, Stage3, Stage4]

  /** `canvasOpacity`: the canvas fades out over the last tenth of the scroll. */
  const CanvasOpacity := Keyframes([0.9, 1.0], [1.0, 0.0])

  /** Every table has strictly increasing breakpoints and as many values as
      breakpoints. */
  lemma TablesWellFormed()
    ensures forall i :: 0 <= i < |Stages| ==> Stages[i].opacity.WellFormed() && Stages[i].y.WellFormed()
    ensures CanvasOpacity.WellFormed() && FrameTable.WellFormed()
  {
  }

  /** Every stage's opacity stays within [0,1] at every progress value. */
  lemma StageOpacityBounded(i: nat, p: real)
    requires i < |Stages|
    ensures StageWellFormed(i) && 0.0 <= Sample(Stages[i].opacity, p) <= 1.0
  {
    TablesWellFormed();
    var k := Stages[i].opacity;
    InterpolateBounded(k.at, k.values, p, 0.0, 1.0);
  }

  predicate StageWellFormed(i: nat)
    requires i < |Stages|
  {
    Stages[i].opacity.WellFormed() && Stages[i].y.WellFormed()
  }

  /** The hand-offs are not seamless: at 0.2, 0.5 and 0.8 every stage is fully
      transparent at once. */
  lemma AllStagesBlankAtBoundaries(i: nat, p: real)
    requires i < |Stages| && (p == 0.2 || p == 0.5 || p == 0.8)
    ensures StageWellFormed(i) && Sample(Stages[i].opacity, p) == 0.0
  {
    TablesWellFormed();
    var k := Stages[i].opacity;
    if p == 0.2 && i == 0 {
      InterpolateAtBreakpoint(k.at, k.values, 2);
    } else if p == 0.5 && i == 1 {
      InterpolateAtBreakpoint(k.at, k.values, 3);
    } else if p == 0.8 && i == 2 {
      InterpolateAtBreakpoint(k.at, k.values, 3);
    } else if p > k.at[|k.at| - 1] {
      InterpolateClampsHigh(k.at, k.values, p);
    }
  }

  /** The canvas is fully opaque up to 0.9 and fully transparent from 1 on,
      fading in between. */
  lemma CanvasExitFade(p: real)
    ensures p <= 0.9 ==> Sample(CanvasOpacity, p) == 1.0
    ensures p >= 1.0 ==> Sample(CanvasOpacity, p) == 0.0
    ensures 0.9 < p < 1.0 ==> 0.0 < Sample(CanvasOpacity, p) < 1.0
  {
  }

  // ---------------------------------------------------------------------
  // The component's canvas state
  // ---------------------------------------------------------------------

  /** What `drawImage` reads of `images[index]`. `width`/`height` of an image
      that is not in the document are its natural dimensions. */
  datatype ImageView = ImageView(complete: bool, naturalWidth: nat, naturalHeight: nat)

  /** Decoded images have both dimensions positive or both zero. */
  predicate Decoded(images: seq<Option<ImageView>>) {
    forall i :: 0 <= i < |images| && images[i].Some? ==>
      (images[i].value.naturalWidth > 0 <==> images[i].value.naturalHeight > 0)
  }

  /** `images[index]`: `undefined` for a hole or an index outside the array. */
  function Lookup(images: seq<Option<ImageView>>, index: int): Option<ImageView> {
    if 0 <= index < |images| then images[index] else None
  }

  /** The guard at the top of `drawImage`: a canvas (and hence a 2-D context)
      must be attached and the image present, complete and of non-zero width. */
  predicate CanDraw(attached: bool, img: Option<ImageView>) {
    attached && img.Some? && img.value.complete && img.value.naturalWidth != 0
  }

  /** What the canvas currently shows: nothing yet, or the last frame drawn
      and the rectangle it was drawn into (the canvas is cleared right before
      each draw, so only the last draw is visible). */
  datatype Picture = Blank | Showing(frame: int, rect: Rect)

  class Animator {
    /** `canvasRef.current !== null`. */
    var attached: bool
    var canvasWidth: nat
    var canvasHeight: nat
    /** The `currentFrame` state. */
    var currentFrame: int
    var picture: Picture
    /** Frames handed to `requestAnimationFrame`, oldest first. */
    var pendingDraws: seq<int>

    ghost predicate Valid()
      reads this
    {
      1 <= currentFrame <= LAST_FRAME
    }

    /** Mount: `currentFrame` starts at 1 and the resize handler runs once. */
    constructor Mount(attached: bool, innerWidth: nat, innerHeight: nat, images: seq<Option<ImageView>>)
      requires Decoded(images)
      ensures Valid() && this.attached == attached && currentFrame == 1 && pendingDraws == []
      ensures attached ==> canvasWidth == innerWidth && canvasHeight == innerHeight
      ensures picture == (if CanDraw(attached, Lookup(images, 1))
        then Showing(1, CoverFit(canvasWidth as real, canvasHeight as real,
          Lookup(images, 1).value.naturalWidth as real, Lookup(images, 1).value.naturalHeight as real))
        else Blank)
    {
      this.attached := attached;
      canvasWidth, canvasHeight := 300, 150;
      currentFrame := 1;
      picture := Blank;
      pendingDraws := [];
      new;
      HandleResize(innerWidth, innerHeight, images);
    }

    /** `drawImage(index)`: leaves the canvas as it was when the guard fails,
        otherwise clears it and draws the frame cover-fitted. (Callers that
        resize the canvas first have already cleared it.) */
    method DrawImage(index: int, images: seq<Option<ImageView>>)
      requires Decoded(images)
      modifies this
      ensures attached == old(attached) && canvasWidth == old(canvasWidth) && canvasHeight == old(canvasHeight)
      ensures currentFrame == old(currentFrame) && pendingDraws == old(pendingDraws)
      ensures picture == (if CanDraw(attached, Lookup(images, index))
        then Showing(index, CoverFit(canvasWidth as real, canvasHeight as real,
          Lookup(images, index).value.naturalWidth as real, Lookup(images, index).value.naturalHeight as real))
        else old(picture))
    {
      var img := Lookup(images, index);
      if !CanDraw(attached, img) {
        return;
      }
      var rect := CoverFit(canvasWidth as real, canvasHeight as real,
        img.value.naturalWidth as real, img.value.naturalHeight as real);
      picture := Showing(index, rect);
    }

    /** The `change` handler of the frame-index motion value at scroll
        progress `p`: a new index below the bound becomes `currentFrame`,
        and a draw of it is scheduled only once the frames are loaded. */
    method OnScroll(p: real, isLoaded: bool)
      requires Valid()
      modifies this
      ensures Valid()
      ensures attached == old(attached) && canvasWidth == old(canvasWidth) && canvasHeight == old(canvasHeight)
      ensures picture == old(picture)
      ensures var index := FrameIndex(p);
        if index != old(currentFrame) && index <= LAST_FRAME then
          currentFrame == index &&
          pendingDraws == old(pendingDraws) + (if isLoaded then [index] else [])
        else
          currentFrame == old(currentFrame) && pendingDraws == old(pendingDraws)
    {
      var index := RoundHalfUp(Sample(FrameTable, p));
      FrameIndexInRange(p);
      if index != currentFrame && index <= LAST_FRAME {
        currentFrame := index;
        if isLoaded {
          pendingDraws := pendingDraws + [index];
        }
      }
    }

    /** The browser runs the oldest scheduled animation-frame callback. */
    method RunAnimationFrame(images: seq<Option<ImageView>>)
      requires Decoded(images) && pendingDraws != []
      modifies this
      ensures attached == old(attached) && canvasWidth == old(canvasWidth) && canvasHeight == old(canvasHeight)
      ensures currentFrame == old(currentFrame) && pendingDraws == old(pendingDraws[1..])
      ensures var index := old(pendingDraws[0]);
        picture == (if CanDraw(attached, Lookup(images, index))
          then Showing(index, CoverFit(canvasWidth as real, canvasHeight as real,
            Lookup(images, index).value.naturalWidth as real, Lookup(images, index).value.naturalHeight as real))
          else old(picture))
    {
      var index := pendingDraws[0];
      pendingDraws := pendingDraws[1..];
      DrawImage(index, images);
    }

    /** `handleResize`: with a canvas attached, its pixel size becomes the
        window's inner size and the current frame is redrawn at once.
        Assigning a canvas's width or height resets its bitmap, so an
        attached canvas whose redraw is refused is left blank. */
    method HandleResize(innerWidth: nat, innerHeight: nat, images: seq<Option<ImageView>>)
      requires Decoded(images)
      modifies this
      ensures attached == old(attached) && currentFrame == old(currentFrame) && pendingDraws == old(pendingDraws)
      ensures !attached ==> canvasWidth == old(canvasWidth) && canvasHeight == old(canvasHeight) && picture == old(picture)
      ensures attached ==> canvasWidth == innerWidth && canvasHeight == innerHeight
      ensures picture == (if CanDraw(attached, Lookup(images, currentFrame))
        then Showing(currentFrame, CoverFit(innerWidth as real, innerHeight as real,
          Lookup(images, currentFrame).value.naturalWidth as real, Lookup(images, currentFrame).value.naturalHeight as real))
        else if attached then Blank
        else old(picture))
    {
      if attached {
        canvasWidth, canvasHeight := innerWidth, innerHeight;
        picture := Blank;
        DrawImage(currentFrame, images);
      }
    }

    /** The "initial draw when loaded" effect. */
    method LoadedEffect(isLoaded: bool, images: seq<Option<ImageView>>)
      requires Decoded(images)
      modifies this
      ensures attached == old(attached) && canvasWidth == old(canvasWidth) && canvasHeight == old(canvasHeight)
      ensures currentFrame == old(currentFrame) && pendingDraws == old(pendingDraws)
      ensures picture == (if isLoaded && CanDraw(attached, Lookup(images, currentFrame))
        then Showing(currentFrame, CoverFit(canvasWidth as real, canvasHeight as real,
          Lookup(images, currentFrame).value.naturalWidth as real, Lookup(images, currentFrame).value.naturalHeight as real))
        else old(picture))
    {
      if isLoaded {
        DrawImage(currentFrame, images);
      }
    }

    /** A `change` event and the render it causes: when the index moves,
        both effects that depend on `currentFrame` re-run, the resize effect
        first. The redraw therefore happens whether or not the frames are
        loaded; `isLoaded` decides only whether a draw is also queued. */
    method FrameChange(p: real, isLoaded: bool, innerWidth: nat, innerHeight: nat, images: seq<Option<ImageView>>)
      requires Valid() && Decoded(images)
      modifies this
      ensures Valid() && attached == old(attached)
      ensures var index := FrameIndex(p);
        if index != old(currentFrame) then
          currentFrame == index &&
          pendingDraws == old(pendingDraws) + (if isLoaded then [index] else []) &&
          (attached ==> canvasWidth == innerWidth && canvasHeight == innerHeight) &&
          (!attached ==> canvasWidth == old(canvasWidth) && canvasHeight == old(canvasHeight)) &&
          picture == (if CanDraw(attached, Lookup(images, index))
            then Showing(index, CoverFit(innerWidth as real, innerHeight as real,
              Lookup(images, index).value.naturalWidth as real, Lookup(images, index).value.naturalHeight as real))
            else if attached then Blank
            else old(picture))
        else
          currentFrame == old(currentFrame) && pendingDraws == old(pendingDraws) &&
          canvasWidth == old(canvasWidth) && canvasHeight == old(canvasHeight) && picture == old(picture)
    {
      var before := currentFrame;
      FrameIndexInRange(p);
      OnScroll(p, isLoaded);
      if currentFrame != before {
        HandleResize(innerWidth, innerHeight, images);
        LoadedEffect(isLoaded, images);
      }
    }

    /** The render in which `isLoaded` turns true: both effects depend on it,
        so the resize effect redraws and the loaded effect draws the same
        frame again. */
    method BecameLoaded(innerWidth: nat, innerHeight: nat, images: seq<Option<ImageView>>)
      requires Valid() && Decoded(images)
      modifies this
      ensures Valid() && attached == old(attached) && currentFrame == old(currentFrame) && pendingDraws == old(pendingDraws)
      ensures attached ==> canvasWidth == innerWidth && canvasHeight == innerHeight
      ensures !attached ==> canvasWidth == old(canvasWidth) && canvasHeight == old(canvasHeight)
      ensures picture == (if CanDraw(attached, Lookup(images, currentFrame))
        then Showing(currentFrame, CoverFit(innerWidth as real, innerHeight as real,
          Lookup(images, currentFrame).value.naturalWidth as real, Lookup(images, currentFrame).value.naturalHeight as real))
        else if attached then Blank
        else old(picture))
    {
      HandleResize(innerWidth, innerHeight, images);
      LoadedEffect(true, images);
    }
  }
}
