/** The home carousel's position counter (js/main.js `mountCarousel`). */
module Carousel {
  import Decimal

  /** `(index+1)%total`: one slide forward, wrapping from the last to the first. */
  function Forward(index: nat, total: nat): (r: nat)
    requires total > 0
    ensures r < total
    ensures index < total ==> r == if index == total - 1 then 0 else index + 1
  {
    (index + 1) % total
  }

  /** `(index-1+total)%total`: one slide back, wrapping from the first to the last. */
  function Backward(index: nat, total: nat): (r: nat)
    requires total > 0
    ensures r < total
    ensures index < total ==> r == if index == 0 then total - 1 else index - 1
  {
    (index - 1 + total) % total
  }

  /** Back undoes forward and forward undoes back. */
  lemma BackwardForward(index: nat, total: nat)
    requires index < total
    ensures Backward(Forward(index, total), total) == index
    ensures Forward(Backward(index, total), total) == index
  {
  }

  /** The position after `steps` forward moves (next clicks or timer ticks). */
  function Advance(index: nat, total: nat, steps: nat): (r: nat)
    requires total > 0
    ensures index < total ==> r < total
  {
    if steps == 0 then index else Forward(Advance(index, total, steps - 1), total)
  }

  /** Forward moves that do not pass the last slide just count up. */
  lemma {:induction false} AdvanceWithinRange(index: nat, total: nat, steps: nat)
    requires index + steps < total
    ensures Advance(index, total, steps) == index + steps
  {
    if steps > 0 {
      AdvanceWithinRange(index, total, steps - 1);
    }
  }

  /** Moving `a` then `b` slides is moving `a + b` slides. */
  lemma {:induction false} AdvanceAdditive(index: nat, total: nat, a: nat, b: nat)
    requires total > 0
    ensures Advance(index, total, a + b) == Advance(Advance(index, total, a), total, b)
  {
    if b > 0 {
      AdvanceAdditive(index, total, a, b - 1);
    }
  }

  /** `total` forward moves (next clicks or timer ticks) bring the carousel back
      to where it was. */
  lemma FullCycle(index: nat, total: nat)
    requires index < total
    ensures Advance(index, total, total) == index
  {
    var toLast := total - 1 - index;
    AdvanceWithinRange(index, total, toLast);
    AdvanceAdditive(index, total, toLast, 1);
    assert Advance(index, total, toLast + 1) == 0;
    AdvanceAdditive(index, total, toLast + 1, index);
    AdvanceWithinRange(0, total, index);
    assert toLast + 1 + index == total;
  }

  /** ``translateX(-${index*100}%)``. */
  function Transform(index: nat): (css: string)
    ensures var n := Decimal.NatToString(index * 100);
            css == "translateX(-" + n + "%)" && Decimal.ValueOf(n) == index * 100
  {
    Decimal.ValueOfNatToString(index * 100);
    "translateX(-" + Decimal.NatToString(index * 100) + "%)"
  }

  /** The carousel mounted over `total` images: the shared position counter that
      the prev and next buttons and the five-second timer update. */
  class Track {
    const total: nat
    var index: nat
    /** `track.style.transform`: empty until the first move. */
    var style: string

    ghost predicate Valid()
      reads this
    {
      total > 0 && index < total
    }

    /** `let index = 0; const total = images.length;` */
    constructor (total: nat)
      requires total > 0
      ensures Valid() && this.total == total && index == 0 && style == ""
    {
      this.total := total;
      index := 0;
      style := "";
    }

    /** `update`: the track is translated to the current slide. */
    method Update()
      requires Valid()
      modifies this
      ensures Valid() && index == old(index) && style == Transform(index)
    {
      style := "translateX(-" + Decimal.NatToString(index * 100) + "%)";
    }

    /** The prev button's click handler. */
    method Prev()
      requires Valid()
      modifies this
      ensures Valid() && index == Backward(old(index), total) && style == Transform(index)
    {
      index := (index - 1 + total) % total;
      Update();
    }

    /** The next button's click handler. */
    method Next()
      requires Valid()
      modifies this
      ensures Valid() && index == Forward(old(index), total) && style == Transform(index)
    {
      index := (index + 1) % total;
      Update();
    }

    /** One firing of the five-second timer: the same move as `Next`. */
    method Tick()
      requires Valid()
      modifies this
      ensures Valid() && index == Forward(old(index), total) && style == Transform(index)
    {
      index := (index + 1) % total;
      Update();
    }
  }
}
