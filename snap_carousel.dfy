/**
 * The mobile carousel shared by the reviews and the services sections: a
 * horizontally scrolling track whose `active` index moves by `snapTo`, by
 * the arrow keys and by the previous/next buttons.
 */
module SnapCarousel {
  datatype Key = ArrowRight | ArrowLeft | Enter | Space | Other

  /** The next-button and ArrowRight target `Math.min(active + 1, len - 1)`. */
  function NextTarget(active: int, len: nat): (r: int)
    ensures 0 <= active < len ==> active <= r < len
    ensures r <= len - 1 && r <= active + 1
    ensures r == active + 1 || r == len - 1
  {
    if active + 1 < len - 1 then active + 1 else len - 1
  }

  /** The previous-button and ArrowLeft target `Math.max(active - 1, 0)`. */
  function PrevTarget(active: int): (r: int)
    ensures 0 <= active ==> 0 <= r <= active
    ensures r >= 0 && r >= active - 1
    ensures r == active - 1 || r == 0
  {
    if active - 1 > 0 then active - 1 else 0
  }

  /** From an index on a non-empty track, both targets are on the track; at the ends they stay put. */
  lemma TargetsInRange(active: int, len: nat)
    requires 0 <= active < len
    ensures 0 <= NextTarget(active, len) < len
    ensures 0 <= PrevTarget(active) < len
    ensures active == len - 1 <==> NextTarget(active, len) == active
    ensures active == 0 <==> PrevTarget(active) == active
  {
  }

  /** Away from the ends, one step forward and one back return to the same card, in either order. */
  lemma StepsInverse(active: int, len: nat)
    requires 0 <= active < len
    ensures active < len - 1 ==> PrevTarget(NextTarget(active, len)) == active
    ensures 0 < active ==> NextTarget(PrevTarget(active), len) == active
  {
  }

  /** The index a key moves to, if it moves at all. */
  function KeyTarget(k: Key, active: int, len: nat): (r: int)
    ensures 0 <= active < len ==> 0 <= r < len && active - 1 <= r <= active + 1
    ensures k == ArrowRight ==> r == NextTarget(active, len)
    ensures k == ArrowLeft ==> r == PrevTarget(active)
    ensures k != ArrowRight && k != ArrowLeft ==> r == active
  {
    match k
    case ArrowRight => NextTarget(active, len)
    case ArrowLeft => PrevTarget(active)
    case _ => active
  }

  /**
   * One carousel: `count` items, a track that is `mounted` (its children
   * are the items) or not yet, and the `active` index.
   */
  class Carousel {
    const count: nat
    const mounted: bool
    var active: int

    /** `active` is the initial 0 or an item of the track. */
    predicate Valid()
      reads this
    {
      active == 0 || 0 <= active < count
    }

    /** Whether `trackRef.current?.children[idx]` exists. */
    predicate HasChild(idx: int) {
      mounted && 0 <= idx < count
    }

    constructor (count: nat, mounted: bool)
      ensures this.count == count && this.mounted == mounted
      ensures active == 0 && Valid()
    {
      this.count := count;
      this.mounted := mounted;
      active := 0;
    }

    /** `snapTo(idx)`: with a child at `idx`, it becomes active; without one, nothing happens. */
    method SnapTo(idx: int)
      requires Valid()
      modifies this
      ensures Valid()
      ensures HasChild(idx) ==> active == idx
      ensures !HasChild(idx) ==> active == old(active)
    {
      if HasChild(idx) {
        active := idx;
      }
    }

    /** The track's key handler: ArrowRight and ArrowLeft snap to the clamped neighbour, other keys do nothing. */
    method OnKey(k: Key)
      requires Valid()
      modifies this
      ensures Valid()
      ensures var t := KeyTarget(k, old(active), count);
        active == if HasChild(t) then t else old(active)
      ensures k != ArrowRight && k != ArrowLeft ==> active == old(active)
    {
      if k == ArrowRight {
        SnapTo(NextTarget(active, count));
      } else if k == ArrowLeft {
        SnapTo(PrevTarget(active));
      }
    }

    /** The previous button. */
    method OnPrevButton()
      requires Valid()
      modifies this
      ensures Valid()
      ensures mounted && count > 0 ==> active == PrevTarget(old(active))
      ensures !mounted ==> active == old(active)
    {
      SnapTo(PrevTarget(active));
    }

    /** The next button. */
    method OnNextButton()
      requires Valid()
      modifies this
      ensures Valid()
      ensures mounted && count > 0 ==> active == NextTarget(old(active), count)
      ensures !mounted ==> active == old(active)
    {
      SnapTo(NextTarget(active, count));
    }
  }

  /** On a mounted track, the next button and then the previous button come back to the card away from the last one. */
  method NextThenPrev(c: Carousel)
    requires c.Valid() && c.mounted && c.active < c.count - 1
    modifies c
    ensures c.Valid() && c.active == old(c.active)
  {
    ghost var a := c.active;
    c.OnNextButton();
    c.OnPrevButton();
    StepsInverse(a, c.count);
  }
}
