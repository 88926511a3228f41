/**
 * The landing page's hero carousel: a fixed list of background images, an
 * interval tick that advances the index modulo the list's length, and
 * indicator buttons that jump to an image.
 */
module HeroSection {

  const HeroImages: seq<string> := [
    "https://images.unsplash.com/photo-1606216794074-735e91aa2c92?w=1920&h=1080&fit=crop",
    "https://images.unsplash.com/photo-1511285560929-80b456fea0bc?w=1920&h=1080&fit=crop",
    "https://images.unsplash.com/photo-1519741497674-611481863552?w=1920&h=1080&fit=crop"
  ]

  /** One interval tick: `(prev + 1) % n`, wrapping from the last image to the first. */
  function NextIndex(prev: int, n: int): (r: int)
    requires 0 <= prev < n
    ensures 0 <= r < n
    ensures r == if prev == n - 1 then 0 else prev + 1
  {
    (prev + 1) % n
  }

  /** The index after `k` ticks. */
  function AfterTicks(start: int, k: nat, n: int): (r: int)
    requires 0 <= start < n
    ensures 0 <= r < n
  {
    if k == 0 then start else NextIndex(AfterTicks(start, k - 1, n), n)
  }

  /** Within one cycle, `k` ticks from `start` move `k` images on, wrapping once. */
  lemma {:induction false} AfterTicksWithinCycle(start: int, k: nat, n: int)
    requires n > 0 && 0 <= start < n && k <= n
    ensures AfterTicks(start, k, n) == if start + k < n then start + k else start + k - n
  {
    if k > 0 {
      AfterTicksWithinCycle(start, k - 1, n);
    }
  }

  /** After one tick per image the carousel is back where it started. */
  lemma FullCycle(start: int, n: int)
    requires n > 0 && 0 <= start < n
    ensures AfterTicks(start, n as nat, n) == start
  {
    AfterTicksWithinCycle(start, n as nat, n);
  }

  /** The opacity, in percent, of image `index` when `current` is shown. */
  function Opacity(index: int, current: int): int {
    if index == current then 100 else 0
  }

  /** Exactly one image of the carousel is at full opacity. */
  lemma ExactlyOneVisible(current: int)
    requires 0 <= current < |HeroImages|
    ensures (set i | 0 <= i < |HeroImages| && Opacity(i, current) == 100) == {current}
  {
  }

  class HeroCarousel {
    var currentImageIndex: int

    ghost predicate Valid()
      reads this
    {
      0 <= currentImageIndex < |HeroImages|
    }

    constructor ()
      ensures Valid() && currentImageIndex == 0
    {
      currentImageIndex := 0;
    }

    /** The 5-second interval callback. */
    method Tick()
      requires Valid()
      modifies this
      ensures Valid() && currentImageIndex == NextIndex(old(currentImageIndex), |HeroImages|)
    {
      currentImageIndex := (currentImageIndex + 1) % |HeroImages|;
    }

    /** A click on the indicator of image `index`. */
    method SelectIndicator(index: int)
      requires 0 <= index < |HeroImages|
      modifies this
      ensures Valid() && currentImageIndex == index
    {
      currentImageIndex := index;
    }
  }
}
