/** The featured carousel: a slide index over the featured events, moved
    by the arrows, the indicators and an automatic rotation that runs only
    while there is more than one slide. */
module FeaturedBanner {

  /** `(i + 1) % n`: the slide after `i`, wrapping to the first. */
  function NextIndex(i: nat, n: nat): (r: nat)
    requires n > 0
    ensures r < n
    ensures i < n ==> r == (if i == n - 1 then 0 else i + 1)
  {
    (i + 1) % n
  }

  /** `(i - 1 + n) % n`: the slide before `i`, wrapping to the last. */
  function PrevIndex(i: nat, n: nat): (r: nat)
    requires n > 0
    ensures r < n
    ensures i < n ==> r == (if i == 0 then n - 1 else i - 1)
  {
    (i - 1 + n) % n
  }

  /** Going back after going forward returns to the slide. */
  lemma PrevAfterNext(i: nat, n: nat)
    requires i < n
    ensures PrevIndex(NextIndex(i, n), n) == i
  {
  }

  /** Going forward after going back returns to the slide. */
  lemma NextAfterPrev(i: nat, n: nat)
    requires i < n
    ensures NextIndex(PrevIndex(i, n), n) == i
  {
  }

  /** The index after `k` rotation ticks from `i`. */
  function Rotate(i: nat, n: nat, k: nat): (r: nat)
    requires n > 0
    ensures k > 0 ==> r < n
  {
    if k == 0 then i else NextIndex(Rotate(i, n, k - 1), n)
  }

  /** Ticks compose: `a` ticks then `b` ticks are `a + b` ticks. */
  lemma {:induction false} RotateCompose(i: nat, n: nat, a: nat, b: nat)
    requires n > 0
    ensures Rotate(Rotate(i, n, a), n, b) == Rotate(i, n, a + b)
  {
    if b > 0 {
      RotateCompose(i, n, a, b - 1);
    }
  }

  /** Before the wrap, `k` ticks from slide `i` land on slide `i + k`. */
  lemma {:induction false} RotateForward(i: nat, n: nat, k: nat)
    requires i + k < n
    ensures Rotate(i, n, k) == i + k
  {
    if k > 0 {
      RotateForward(i, n, k - 1);
    }
  }

  /** Every slide comes up during the first `n` ticks, and after `n` ticks
      the carousel is back where it started. */
  lemma RotationVisitsAll(i: nat, n: nat, j: nat)
    requires i < n && j < n
    ensures Rotate(i, n, n) == i
    ensures exists k :: 0 <= k < n && Rotate(i, n, k) == j
  {
    // n - i ticks reach the last slide and wrap to the first.
    RotateForward(i, n, n - 1 - i);
    assert Rotate(i, n, n - i) == 0;
    RotateForward(0, n, i);
    RotateCompose(i, n, n - i, i);
    RotateForward(0, n, j);
    if i <= j {
      RotateForward(i, n, j - i);
      assert Rotate(i, n, j - i) == j;
    } else {
      RotateCompose(i, n, n - i, j);
      assert Rotate(i, n, n - i + j) == j;
    }
  }

  /** The slide drawn opaque, when the index names one. */
  datatype VisibleSlide = NoSlide | SlideAt(slide: nat)

  /** The banner renders at all only when there are featured events. */
  predicate ShowBanner(n: nat)
  {
    n > 0
  }

  /** The arrows and the indicators appear only when there are at least two slides. */
  predicate ShowControls(n: nat)
  {
    n > 1
  }

  /** When the featured list shrinks to a single event while a later slide
      was current, the banner is rendered but draws no slide, and it has no
      arrows, no indicators and no rotation that could move the index back. */
  lemma BlankAfterShrinkToOne(c: Carousel)
    requires c.Valid() && c.count == 1 && c.index >= 1
    ensures ShowBanner(c.count) && !ShowControls(c.count) && !c.rotating
    ensures c.Visible() == NoSlide
  {
  }

  /** The banner's state: how many featured events it is given, the current
      slide, and whether the rotation interval is installed. */
  class Carousel {
    var count: nat
    var index: nat
    var rotating: bool

    /** The rotation interval is installed exactly when there are at least two slides. */
    predicate Valid()
      reads this
    {
      rotating <==> count > 1
    }

    /** The slide drawn opaque: the one whose position equals the index, if any. */
    function Visible(): (r: VisibleSlide)
      reads this
      ensures r.SlideAt? <==> index < count
      ensures r.SlideAt? ==> r.slide == index
    {
      if index < count then SlideAt(index) else NoSlide
    }

    constructor (n: nat)
      ensures count == n && index == 0 && Valid()
    {
      count := n;
      index := 0;
      rotating := n > 1;
    }

    /** `goToNext`. */
    method GoToNext()
      requires Valid() && count > 0
      modifies this
      ensures count == old(count) && rotating == old(rotating) && Valid()
      ensures index == NextIndex(old(index), count)
    {
      index := (index + 1) % count;
    }

    /** `goToPrev`. */
    method GoToPrev()
      requires Valid() && count > 0
      modifies this
      ensures count == old(count) && rotating == old(rotating) && Valid()
      ensures index == PrevIndex(old(index), count)
    {
      index := (index - 1 + count) % count;
    }

    /** A click on the indicator of slide `k`. */
    method Jump(k: nat)
      requires Valid() && k < count
      modifies this
      ensures index == k
      ensures count == old(count) && rotating == old(rotating) && Valid()
    {
      index := k;
    }

    /** One firing of the rotation interval: the same step as `goToNext`. */
    method Tick()
      requires Valid() && rotating
      modifies this
      ensures count == old(count) && rotating == old(rotating) && Valid()
      ensures index == NextIndex(old(index), count) && index < count
    {
      index := (index + 1) % count;
    }

    /** A new list of `n` featured events: the rotation effect is set up
        again for the new length, while the index is kept as it was. */
    method EventsChanged(n: nat)
      modifies this
      ensures count == n && index == old(index) && Valid()
    {
      count := n;
      rotating := n > 1;
    }
  }
}
