/** The frame preloader hook (`useImagePreloader`): on mount it creates one
    image per frame slot 1..240, each pointing at its zero-padded path, and
    counts completions. Success and failure run the same completion handler,
    and a liveness flag makes completions that arrive after unmount no-ops. */
module ImagePreloader {
  import opened Wrappers
  import opened Text

  /** Number of frames in the sequence; slots are addressed 1..FRAME_COUNT. */
  const FRAME_COUNT: nat := 240

  /** The frame number as `i.toString().padStart(4, '0')`. */
  function FrameLabel(i: nat): string {
    PadStart(Decimal(i), 4, '0')
  }

  /** The asset path `/frames/frame_NNNN.webp` of frame `i`. */
  function FramePath(i: nat): string {
    "/frames/frame_" + FrameLabel(i) + ".webp"
  }

  /** For every frame of the sequence the label is exactly four digits and
      reads back as the frame number. */
  lemma FrameLabelReadsBack(i: nat)
    requires 1 <= i <= FRAME_COUNT
    ensures |FrameLabel(i)| == 4 && AllDigits(FrameLabel(i))
    ensures ParseDigits(FrameLabel(i)) == i
  {
    var d := Decimal(i);
    DecimalAtMostThree(i);
    var padded := FrameLabel(i);
    var z := padded[..4 - |d|];
    assert padded == z + d;
    LeadingZeros(z, d);
    ParseDecimal(i);
  }

  /** Distinct frames get distinct paths, so no two slots load the same file. */
  lemma FramePathInjective(i: nat, j: nat)
    requires 1 <= i <= FRAME_COUNT && 1 <= j <= FRAME_COUNT && i != j
    ensures FramePath(i) != FramePath(j)
  {
    FrameLabelReadsBack(i);
    FrameLabelReadsBack(j);
    assert FramePath(i)[14..18] == FrameLabel(i);
    assert FramePath(j)[14..18] == FrameLabel(j);
  }

  /** An image element as the slot loop creates it. Whether it later loads
      is decided by the browser and arrives as an `OnLoad`/`OnError` call. */
  datatype FrameImage = FrameImage(frame: nat, src: string)

  /** The slot-by-slot image array the hook publishes: slot 0 is a hole
      and slot `i` holds the image for frame `i`. */
  ghost predicate SlotsFilled(images: seq<Option<FrameImage>>) {
    |images| == FRAME_COUNT + 1 &&
    images[0] == None &&
    forall i :: 1 <= i <= FRAME_COUNT ==> images[i] == Some(FrameImage(i, FramePath(i)))
  }

  predicate NoDuplicates(s: seq<nat>) {
    forall i, j :: 0 <= i < j < |s| ==> s[i] != s[j]
  }

  /** The browser's promise that every image fires exactly one of `onload`
      or `onerror`: no slot completes twice, and only real slots complete. */
  predicate OneCompletionPerSlot(slots: seq<nat>) {
    NoDuplicates(slots) && forall k :: 0 <= k < |slots| ==> 1 <= slots[k] <= FRAME_COUNT
  }

  /** One state of the hook between mount and unmount. */
  class Preloader {
    /** `loadedImages`, the array handed to `setImages`. */
    var images: array<Option<FrameImage>>
    /** The closure's `loadCounter`. */
    var loadCounter: nat
    /** The published `loadedCount` state. */
    var loadedCount: nat
    /** The published `isLoaded` state. */
    var isLoaded: bool
    /** The effect's `isMounted` liveness flag. */
    var isMounted: bool
    /** The slots whose completion was counted, in arrival order. */
    ghost var counted: seq<nat>

    ghost predicate Valid()
      reads this, images
    {
      SlotsFilled(images[..]) &&
      loadCounter == |counted| &&
      loadedCount == loadCounter &&
      (isLoaded <==> loadCounter >= FRAME_COUNT)
    }

    /** The mount effect: the slot loop creates every image, nothing has
        completed yet, and the hook is live. */
    constructor Mount()
      ensures Valid() && fresh(images)
      ensures isMounted && !isLoaded && loadCounter == 0 && loadedCount == 0 && counted == []
    {
      var slots := new Option<FrameImage>[FRAME_COUNT + 1](_ => None);
      for i := 1 to FRAME_COUNT + 1
        invariant slots[0] == None
        invariant forall k :: 1 <= k < i ==> slots[k] == Some(FrameImage(k, FramePath(k)))
      {
        slots[i] := Some(FrameImage(i, FramePath(i)));
      }
      images := slots;
      loadCounter, loadedCount := 0, 0;
      isLoaded, isMounted := false, true;
      counted := [];
    }

    /** `onComplete` for the image of `slot`: ignored after unmount; otherwise
        the counter goes up by one, is published, and readiness is set when
        it reaches FRAME_COUNT. */
    method OnComplete(ghost slot: nat)
      requires Valid()
      modifies this
      ensures Valid() && images == old(images) && isMounted == old(isMounted)
      ensures old(isMounted) ==> loadCounter == old(loadCounter) + 1 && counted == old(counted) + [slot]
      ensures !old(isMounted) ==>
        loadCounter == old(loadCounter) && loadedCount == old(loadedCount) &&
        isLoaded == old(isLoaded) && counted == old(counted)
      ensures old(isLoaded) ==> isLoaded
      ensures isLoaded && !old(isLoaded) ==> loadCounter == FRAME_COUNT
    {
      if !isMounted {
        return;
      }
      loadCounter := loadCounter + 1;
      loadedCount := loadCounter;
      counted := counted + [slot];
      if loadCounter == FRAME_COUNT {
        isLoaded := true;
      }
    }

    /** `img.onload` of the image in `slot`. */
    method OnLoad(ghost slot: nat)
      requires Valid()
      modifies this
      ensures Valid() && images == old(images) && isMounted == old(isMounted)
      ensures old(isMounted) ==> loadCounter == old(loadCounter) + 1 && counted == old(counted) + [slot]
      ensures !old(isMounted) ==>
        loadCounter == old(loadCounter) && loadedCount == old(loadedCount) &&
        isLoaded == old(isLoaded) && counted == old(counted)
      ensures old(isLoaded) ==> isLoaded
    {
      OnComplete(slot);
    }

    /** `img.onerror` of the image in `slot`: the failure is logged (not
        modelled) and then counted exactly like a success. */
    method OnError(ghost slot: nat)
      requires Valid()
      modifies this
      ensures Valid() && images == old(images) && isMounted == old(isMounted)
      ensures old(isMounted) ==> loadCounter == old(loadCounter) + 1 && counted == old(counted) + [slot]
      ensures !old(isMounted) ==>
        loadCounter == old(loadCounter) && loadedCount == old(loadedCount) &&
        isLoaded == old(isLoaded) && counted == old(counted)
      ensures old(isLoaded) ==> isLoaded
    {
      OnComplete(slot);
    }

    /** The effect's cleanup: later completions are discarded. */
    method Unmount()
      requires Valid()
      modifies this
      ensures Valid() && !isMounted
      ensures images == old(images) && loadCounter == old(loadCounter)
      ensures loadedCount == old(loadedCount) && isLoaded == old(isLoaded) && counted == old(counted)
    {
      isMounted := false;
    }

    /** The hook's reported `total`. */
    function Total(): nat {
      FRAME_COUNT
    }
  }

  /** When each image completes at most once, the counter cannot pass
      FRAME_COUNT, so readiness means exactly "all 240 slots resolved". */
  lemma CounterBounded(p: Preloader)
    requires p.Valid() && OneCompletionPerSlot(p.counted)
    ensures p.loadCounter <= FRAME_COUNT
    ensures p.isLoaded <==> p.loadCounter == FRAME_COUNT
  {
    DistinctSlotsBounded(p.counted);
  }

  /** A duplicate-free sequence of slot numbers in 1..FRAME_COUNT has at most
      FRAME_COUNT entries. */
  lemma DistinctSlotsBounded(slots: seq<nat>)
    requires OneCompletionPerSlot(slots)
    ensures |slots| <= FRAME_COUNT
  {
    var seen := Elements(slots);
    DistinctCardinality(slots);
    RangeCardinality(1, FRAME_COUNT + 1);
    forall k | k in seen ensures k in Range(1, FRAME_COUNT + 1) {
      var idx :| 0 <= idx < |slots| && slots[idx] == k;
      RangeMembership(1, FRAME_COUNT + 1, k);
    }
    SubsetCardinality(seen, Range(1, FRAME_COUNT + 1));
  }

  lemma {:induction false} DistinctCardinality(s: seq<nat>)
    requires NoDuplicates(s)
    ensures |Elements(s)| == |s|
  {
    if s != [] {
      var init := s[..|s| - 1];
      DistinctCardinality(init);
      var last := s[|s| - 1];
      assert s == init + [last];
      assert last !in Elements(init);
      assert Elements(s) == Elements(init) + {last};
    }
  }

  function Elements(s: seq<nat>): set<nat> {
    set k | k in s
  }

  /** The numbers `a <= i < b`. */
  function Range(a: nat, b: nat): set<nat>
    decreases b - a
  {
    if a >= b then {} else {a} + Range(a + 1, b)
  }

  lemma {:induction false} RangeMembership(a: nat, b: nat, x: nat)
    ensures x in Range(a, b) <==> a <= x < b
    decreases b - a
  {
    if a < b {
      RangeMembership(a + 1, b, x);
    }
  }

  lemma {:induction false} RangeCardinality(a: nat, b: nat)
    requires a <= b
    ensures |Range(a, b)| == b - a
    decreases b - a
  {
    if a < b {
      RangeCardinality(a + 1, b);
      RangeMembership(a + 1, b, a);
    }
  }

  lemma {:induction false} SubsetCardinality(s: set<nat>, t: set<nat>)
    requires s <= t
    ensures |s| <= |t|
  {
    if s != {} {
      var x :| x in s;
      SubsetCardinality(s - {x}, t - {x});
    }
  }
}
