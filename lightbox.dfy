/** The lightbox viewer (js/main.js `openLightbox`, `closeLightbox`,
    `lightboxPrev`, `lightboxNext` and the document click and keydown
    listeners). */
module Lightbox {
  import opened Wrappers
  import Seqs

  /** What the two document listeners recognise: clicks on the close button,
      on the backdrop (the overlay itself), on the prev and next buttons, and
      the three keys. */
  datatype Command = CloseBtn | Backdrop | PrevBtn | NextBtn | Escape | ArrowLeft | ArrowRight {
    predicate IsKey() {
      Escape? || ArrowLeft? || ArrowRight?
    }
  }

  /** `lightboxImages`, `lightboxIndex`, whether the overlay is shown
      (`!lb.hidden`) and whether the prev/next buttons are displayed. */
  datatype State = State(images: seq<string>, index: nat, visible: bool, navShown: bool)

  /** The index stays on an image (or at 0 when there is none), and a hidden
      overlay holds no images. */
  predicate Inv(s: State) {
    && (s.images == [] ==> s.index == 0)
    && (s.images != [] ==> s.index < |s.images|)
    && (!s.visible ==> s.images == [])
  }

  /** The image the overlay shows, if any (`lightboxImages[lightboxIndex]`). */
  function Current(s: State): (r: Option<string>)
    ensures Inv(s) ==> (r.None? <==> s.images == [])
    ensures r.Some? ==> r.value in s.images
    ensures Inv(s) && s.images != [] ==> r == Some(s.images[s.index])
  {
    if s.index < |s.images| then Some(s.images[s.index]) else None
  }

  /** `openLightbox(src, allImages = [src])`; `all` is `None` when the caller
      passes no list. */
  function AfterOpen(s: State, src: string, all: Option<seq<string>>): (r: State)
    ensures Inv(r) && r.visible
    ensures r.images == all.GetOr([src])
    ensures src in r.images ==> r.images[r.index] == src && src !in r.images[..r.index]
    ensures src !in r.images ==> r.index == 0
    ensures r.navShown <==> |r.images| > 1
  {
    var images := all.GetOr([src]);
    var k := Seqs.IndexOf(images, src);
    State(images, if k == -1 then 0 else k, true, |images| > 1)
  }

  /** `closeLightbox()`: hidden, emptied, index back to 0. */
  function AfterClose(s: State): (r: State)
    ensures Inv(r) && !r.visible && r.images == [] && r.index == 0
    ensures r.navShown == s.navShown
  {
    s.(images := [], index := 0, visible := false)
  }

  /** `lightboxPrev()`: nothing without images, else one image back, wrapping. */
  function AfterPrev(s: State): (r: State)
    ensures r.images == s.images && r.visible == s.visible && r.navShown == s.navShown
    ensures s.images == [] ==> r == s
    ensures s.images != [] ==> r.index < |s.images|
    ensures s.images != [] && s.index < |s.images| ==>
              r.index == if s.index == 0 then |s.images| - 1 else s.index - 1
  {
    if |s.images| == 0 then s
    else s.(index := (s.index - 1 + |s.images|) % |s.images|)
  }

  /** `lightboxNext()`: nothing without images, else one image on, wrapping. */
  function AfterNext(s: State): (r: State)
    ensures r.images == s.images && r.visible == s.visible && r.navShown == s.navShown
    ensures s.images == [] ==> r == s
    ensures s.images != [] ==> r.index < |s.images|
    ensures s.images != [] && s.index < |s.images| ==>
              r.index == if s.index == |s.images| - 1 then 0 else s.index + 1
  {
    if |s.images| == 0 then s
    else s.(index := (s.index + 1) % |s.images|)
  }

  /** The two listeners: a click acts whatever the overlay's state; a key acts
      only while the overlay is shown. */
  function AfterCommand(s: State, c: Command): (r: State)
    ensures Inv(s) ==> Inv(r)
    ensures c.IsKey() && !s.visible ==> r == s
    ensures c in {CloseBtn, Backdrop} ==> r == AfterClose(s)
    ensures c == Escape && s.visible ==> r == AfterClose(s)
    ensures (c == PrevBtn || (c == ArrowLeft && s.visible)) ==> r == AfterPrev(s)
    ensures (c == NextBtn || (c == ArrowRight && s.visible)) ==> r == AfterNext(s)
  {
    if c.IsKey() && !s.visible then s
    else
      match c
      case CloseBtn | Backdrop | Escape => AfterClose(s)
      case PrevBtn | ArrowLeft => AfterPrev(s)
      case NextBtn | ArrowRight => AfterNext(s)
  }

  /** Next then prev, and prev then next, restore the state. */
  lemma NextPrevInverse(s: State)
    requires Inv(s)
    ensures AfterPrev(AfterNext(s)) == s
    ensures AfterNext(AfterPrev(s)) == s
  {
  }

  /** After a close, prev and next (clicked or keyed) change nothing. */
  lemma NavigationAfterClose(s: State, c: Command)
    requires c in {PrevBtn, NextBtn, ArrowLeft, ArrowRight}
    ensures AfterCommand(AfterClose(s), c) == AfterClose(s)
  {
  }

  /** `n` successive next moves. */
  function NextTimes(s: State, n: nat): State {
    if n == 0 then s else AfterNext(NextTimes(s, n - 1))
  }

  /** Next moves that do not pass the last image count up and keep the rest. */
  lemma {:induction false} NextTimesWithinRange(s: State, n: nat)
    requires Inv(s) && s.index + n < |s.images|
    ensures NextTimes(s, n) == s.(index := s.index + n)
  {
    if n > 0 {
      NextTimesWithinRange(s, n - 1);
    }
  }

  /** Moving `a` then `b` images on is moving `a + b`. */
  lemma {:induction false} NextTimesAdditive(s: State, a: nat, b: nat)
    ensures NextTimes(s, a + b) == NextTimes(NextTimes(s, a), b)
  {
    if b > 0 {
      NextTimesAdditive(s, a, b - 1);
    }
  }

  /** As many next moves as there are images (`n`) go once round, back to the
      start. */
  lemma NextTimesFullCycle(s: State, n: nat)
    requires Inv(s) && n == |s.images|
    ensures NextTimes(s, n) == s
  {
    if n > 0 {
      var toLast := n - 1 - s.index;
      var atLast := NextTimes(s, toLast);
      NextTimesWithinRange(s, toLast);
      assert atLast == s.(index := n - 1);
      var atZero := NextTimes(s, toLast + 1);
      assert atZero == AfterNext(atLast) == s.(index := 0);
      NextTimesAdditive(s, toLast + 1, s.index);
      NextTimesWithinRange(atZero, s.index);
    }
  }

  /** A gallery click (`openLightbox(src)`) shows that one image alone, without
      prev/next buttons. */
  lemma GalleryClick(s: State, src: string)
    ensures var r := AfterOpen(s, src, None);
            r.images == [src] && r.index == 0 && !r.navShown && Current(r) == Some(src)
  {
  }

  /** A click on thumbnail `k` of the selected-work strip
      (`openLightbox(images[k], images)`) opens the whole strip at the FIRST
      occurrence of that image: at `k` exactly when no earlier thumbnail shows
      the same file, and in particular always at `k` when the strip has no
      repeated files. */
  lemma SelectedWorkClick(s: State, images: seq<string>, k: nat)
    requires k < |images|
    ensures var r := AfterOpen(s, images[k], Some(images));
            && r.images == images && r.index <= k
            && Current(r) == Some(images[k])
            && (r.index == k <==> images[k] !in images[..k])
            && (Seqs.Distinct(images) ==> r.index == k)
  {
    Seqs.IndexOfAtMost(images, k);
    if Seqs.Distinct(images) {
      Seqs.IndexOfDistinct(images, k);
    }
  }

  /** The walk-through: open "b.jpg" among a, b, c gives index 1; next gives 2;
      next wraps to 0; after a close, next leaves the emptied state alone. */
  lemma ThreeImageWalk(s: State, all: seq<string>)
    requires all == ["a.jpg", "b.jpg", "c.jpg"]
    ensures var o := AfterOpen(s, "b.jpg", Some(all));
            && o.index == 1
            && AfterNext(o).index == 2
            && AfterNext(AfterNext(o)).index == 0
            && AfterNext(AfterClose(AfterNext(AfterNext(o)))).images == []
            && AfterNext(AfterClose(AfterNext(AfterNext(o)))).index == 0
  {
    assert all[0] != "b.jpg" && all[1] == "b.jpg";
    assert "b.jpg" in all;
    assert all[..1] == ["a.jpg"];
  }

  /** The lightbox overlay and the state behind it. */
  class Viewer {
    var images: seq<string>
    var index: nat
    var visible: bool
    var navShown: bool

    function Snapshot(): State
      reads this
    {
      State(images, index, visible, navShown)
    }

    ghost predicate Valid()
      reads this
    {
      Inv(Snapshot())
    }

    /** Page load: `lightboxImages = []`, `lightboxIndex = 0`, overlay hidden. */
    constructor ()
      ensures Valid() && images == [] && index == 0 && !visible && !navShown
    {
      images, index, visible, navShown := [], 0, false, false;
    }

    method Open(src: string, all: Option<seq<string>>)
      requires Valid()
      modifies this
      ensures Valid() && Snapshot() == AfterOpen(old(Snapshot()), src, all)
    {
      images := if all.Some? then all.value else [src];
      var k := Seqs.IndexOf(images, src);
      if k == -1 {
        index := 0;
      } else {
        index := k;
      }
      visible := true;
      navShown := |images| > 1;
    }

    method Close()
      requires Valid()
      modifies this
      ensures Valid() && Snapshot() == AfterClose(old(Snapshot()))
    {
      visible := false;
      images := [];
      index := 0;
    }

    method Prev()
      requires Valid()
      modifies this
      ensures Valid() && Snapshot() == AfterPrev(old(Snapshot()))
    {
      if |images| == 0 {
        return;
      }
      index := (index - 1 + |images|) % |images|;
    }

    method Next()
      requires Valid()
      modifies this
      ensures Valid() && Snapshot() == AfterNext(old(Snapshot()))
    {
      if |images| == 0 {
        return;
      }
      index := (index + 1) % |images|;
    }

    /** The document click listener. */
    method Click(c: Command)
      requires Valid() && !c.IsKey()
      modifies this
      ensures Valid() && Snapshot() == AfterCommand(old(Snapshot()), c)
    {
      if c == CloseBtn {
        Close();
      }
      if c == Backdrop {
        Close();
      }
      if c == PrevBtn {
        Prev();
      }
      if c == NextBtn {
        Next();
      }
    }

    /** The document keydown listener. */
    method KeyDown(c: Command)
      requires Valid() && c.IsKey()
      modifies this
      ensures Valid() && Snapshot() == AfterCommand(old(Snapshot()), c)
    {
      if !visible {
        return;
      }
      if c == Escape {
        Close();
      }
      if c == ArrowLeft {
        Prev();
      }
      if c == ArrowRight {
        Next();
      }
    }
  }
}
