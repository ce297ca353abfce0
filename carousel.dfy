/**
 * The background carousel of the home page (src/pages/Home.tsx): an index
 * into the hero images that a timer advances cyclically and the dots set.
 */
module HomeCarousel {

  const HeroImages: seq<string> := ["/hero-bg-1.jpg", "/hero-bg-2.jpg"]

  /** How many images the carousel cycles through. */
  const Count: nat := |HeroImages|

  /** The index after one tick of the timer: the next image, wrapping around. */
  function Next(i: nat): (r: nat)
    requires i < Count
    ensures r < Count
    ensures i + 1 < Count ==> r == i + 1
    ensures i + 1 == Count ==> r == 0
  {
    (i + 1) % Count
  }

  /** The index after `n` ticks. */
  function AfterTicks(i: nat, n: nat): (r: nat)
    requires i < Count
    ensures r < Count
    decreases n
  {
    if n == 0 then i else AfterTicks(Next(i), n - 1)
  }

  /** After `n` ticks the carousel is `n` images further on, counted cyclically. */
  lemma {:induction false} AfterTicksIsShift(i: nat, n: nat)
    requires i < Count
    ensures AfterTicks(i, n) == (i + n) % Count
    decreases n
  {
    if n > 0 {
      AfterTicksIsShift(Next(i), n - 1);
    }
  }

  /** A full round of ticks brings the carousel back to the image it started from. */
  lemma FullRoundReturns(i: nat)
    requires i < Count
    ensures AfterTicks(i, Count) == i
  {
    AfterTicksIsShift(i, Count);
  }

  /** Every image comes up: from any index, each index is reached within one round. */
  lemma EveryImageComesUp(i: nat, k: nat)
    requires i < Count && k < Count
    ensures AfterTicks(i, if i <= k then k - i else Count - i + k) == k
  {
    AfterTicksIsShift(i, if i <= k then k - i else Count - i + k);
  }

  /** Which slides are fully opaque when `current` is the index: exactly the one at `current`. */
  function Opacities(current: nat): (r: seq<bool>)
    ensures |r| == Count
    ensures forall k :: 0 <= k < Count ==> (r[k] <==> k == current)
  {
    seq(Count, k => k == current)
  }

  /** With the index in range, exactly one slide is shown. */
  lemma ExactlyOneShown(current: nat)
    requires current < Count
    ensures (set k | 0 <= k < Count && Opacities(current)[k]) == {current}
    ensures |set k | 0 <= k < Count && Opacities(current)[k]| == 1
  {
    var shown := set k | 0 <= k < Count && Opacities(current)[k];
    assert current in shown;
    assert shown == {current};
  }

  /** The carousel's state. */
  class Carousel {
    var index: nat

    /** The index points at one of the hero images. */
    predicate Valid()
      reads this
    {
      index < Count
    }

    /** The carousel opens on the first image. */
    constructor()
      ensures index == 0 && Valid()
    {
      index := 0;
    }

    /** The timer's callback, every five seconds. */
    method Tick()
      requires Valid()
      modifies this
      ensures index == Next(old(index))
      ensures Valid()
    {
      index := (index + 1) % Count;
    }

    /** A click on the dot of image `k`. */
    method ClickDot(k: nat)
      requires k < Count
      modifies this
      ensures index == k && Valid()
    {
      index := k;
    }
  }
}
