/**
 * `user_color_task`, the colour-test carousel: a fixed script that shows
 * each of the three colour images on its own for 1.5 s, then makes the
 * carousel scrollable again and slides it one screen (320 px) to the left.
 */
module ColorTask {
  import opened Effects

  const DWELL_MS: nat := 1500
  const SCREEN_WIDTH: int := 320

  /** The calls the task makes, in order, before it deletes itself. */
  const Script: seq<Effect> := [
    ClearFlag(Carousel, Scrollable), ClearFlag(Img1, Hidden), AddFlag(Img2, Hidden), AddFlag(Img3, Hidden), Delay(DWELL_MS),
    ClearFlag(Img2, Hidden), AddFlag(Img1, Hidden), AddFlag(Img3, Hidden), Delay(DWELL_MS),
    ClearFlag(Img3, Hidden), AddFlag(Img2, Hidden), AddFlag(Img1, Hidden), Delay(DWELL_MS),
    AddFlag(Carousel, Scrollable), ScrollBy(Carousel, -SCREEN_WIDTH, 0, true)
  ]

  /** The widget state the script acts on: the set flags and the carousel's horizontal scroll. */
  datatype Widgets = Widgets(flags: set<(UiObject, UiFlag)>, scrollX: int)

  /** One call's effect on the widgets; every other call leaves them alone. */
  function Apply(w: Widgets, e: Effect): (r: Widgets)
    ensures e.AddFlag? ==> (e.obj, e.flag) in r.flags
    ensures e.ClearFlag? ==> (e.obj, e.flag) !in r.flags
    ensures forall o, f :: (o, f) in r.flags && !(e.AddFlag? && e.obj == o && e.flag == f) ==> (o, f) in w.flags
    ensures forall o, f :: (o, f) in w.flags && !(e.ClearFlag? && e.obj == o && e.flag == f) ==> (o, f) in r.flags
    ensures r.scrollX == w.scrollX + (if e.ScrollBy? && e.obj == Carousel then e.dx else 0)
  {
    match e
    case AddFlag(o, f) => w.(flags := w.flags + {(o, f)})
    case ClearFlag(o, f) => w.(flags := w.flags - {(o, f)})
    case ScrollBy(o, dx, _, _) => if o == Carousel then w.(scrollX := w.scrollX + dx) else w
    case _ => w
  }

  function ApplyAll(w: Widgets, trace: seq<Effect>): Widgets
    decreases |trace|
  {
    if trace == [] then w else ApplyAll(Apply(w, trace[0]), trace[1..])
  }

  lemma {:induction false} ApplyAllAppend(w: Widgets, a: seq<Effect>, b: seq<Effect>)
    ensures ApplyAll(w, a + b) == ApplyAll(ApplyAll(w, a), b)
    decreases |a|
  {
    if a == [] {
      assert a + b == b;
    } else {
      assert (a + b)[1..] == a[1..] + b;
      ApplyAllAppend(Apply(w, a[0]), a[1..], b);
    }
  }

  /** The colour images not hidden. */
  function Shown(w: Widgets): (r: set<UiObject>)
    ensures r <= {Img1, Img2, Img3}
    ensures forall o :: o in {Img1, Img2, Img3} ==> (o in r <==> (o, Hidden) !in w.flags)
  {
    set o | o in {Img1, Img2, Img3} && (o, Hidden) !in w.flags
  }

  predicate CanScroll(w: Widgets)
  {
    (Carousel, Scrollable) in w.flags
  }

  /** Un-hide `img`, hide the other two (in the given order), then wait. */
  function Phase(img: UiObject, first: UiObject, second: UiObject): seq<Effect>
  {
    [ClearFlag(img, Hidden), AddFlag(first, Hidden), AddFlag(second, Hidden), Delay(DWELL_MS)]
  }

  lemma ScriptShape()
    ensures Script == [ClearFlag(Carousel, Scrollable)] + Phase(Img1, Img2, Img3) + Phase(Img2, Img1, Img3)
                      + Phase(Img3, Img2, Img1) + [AddFlag(Carousel, Scrollable), ScrollBy(Carousel, -SCREEN_WIDTH, 0, true)]
  {
  }

  /**
   * Whatever was shown before, a phase leaves exactly its own image shown,
   * and touches neither the carousel's scroll flag nor its position.
   */
  lemma PhaseShowsOnly(w: Widgets, img: UiObject, first: UiObject, second: UiObject)
    requires {img, first, second} == {Img1, Img2, Img3} && img != first && img != second && first != second
    ensures Shown(ApplyAll(w, Phase(img, first, second))) == {img}
    ensures CanScroll(ApplyAll(w, Phase(img, first, second))) == CanScroll(w)
    ensures ApplyAll(w, Phase(img, first, second)).scrollX == w.scrollX
  {
    var p := Phase(img, first, second);
    var w1 := Apply(w, p[0]);
    var w2 := Apply(w1, p[1]);
    var w3 := Apply(w2, p[2]);
    var w4 := Apply(w3, p[3]);
    assert ApplyAll(w, p) == w4 by {
      assert [p[3]][1..] == [];
      assert ApplyAll(w3, [p[3]]) == w4;
      assert [p[2], p[3]][1..] == [p[3]];
      assert ApplyAll(w2, [p[2], p[3]]) == w4;
      assert [p[1], p[2], p[3]][1..] == [p[2], p[3]];
      assert ApplyAll(w1, [p[1], p[2], p[3]]) == w4;
      assert p[1..] == [p[1], p[2], p[3]];
    }
    assert (img, Hidden) !in w4.flags;
    assert (first, Hidden) in w4.flags && (second, Hidden) in w4.flags;
  }

  /**
   * The carousel is locked while the colours cycle: at the end of each
   * dwell exactly one image shows, Img1 then Img2 then Img3, and the
   * carousel is not scrollable; at the end it is scrollable again and has
   * moved one screen to the left. This holds from any starting state.
   */
  lemma OneImageAtEachDwell(w: Widgets)
    ensures Shown(ApplyAll(w, Script[..5])) == {Img1} && !CanScroll(ApplyAll(w, Script[..5]))
    ensures Shown(ApplyAll(w, Script[..9])) == {Img2} && !CanScroll(ApplyAll(w, Script[..9]))
    ensures Shown(ApplyAll(w, Script[..13])) == {Img3} && !CanScroll(ApplyAll(w, Script[..13]))
    ensures CanScroll(ApplyAll(w, Script)) && Shown(ApplyAll(w, Script)) == {Img3}
    ensures ApplyAll(w, Script).scrollX == w.scrollX - SCREEN_WIDTH
  {
    ScriptShape();
    var lock := [ClearFlag(Carousel, Scrollable)];
    var p1, p2, p3 := Phase(Img1, Img2, Img3), Phase(Img2, Img1, Img3), Phase(Img3, Img2, Img1);
    var tail := [AddFlag(Carousel, Scrollable), ScrollBy(Carousel, -SCREEN_WIDTH, 0, true)];
    assert Script[..5] == lock + p1;
    assert Script[..9] == (lock + p1) + p2;
    assert Script[..13] == ((lock + p1) + p2) + p3;
    assert Script == (((lock + p1) + p2) + p3) + tail;

    var w0 := ApplyAll(w, lock);
    assert w0 == Apply(w, lock[0]) by { assert lock[1..] == []; }
    ApplyAllAppend(w, lock, p1);
    PhaseShowsOnly(w0, Img1, Img2, Img3);
    var w1 := ApplyAll(w0, p1);
    ApplyAllAppend(w, lock + p1, p2);
    PhaseShowsOnly(w1, Img2, Img1, Img3);
    var w2 := ApplyAll(w1, p2);
    ApplyAllAppend(w, (lock + p1) + p2, p3);
    PhaseShowsOnly(w2, Img3, Img2, Img1);
    var w3 := ApplyAll(w2, p3);
    ApplyAllAppend(w, ((lock + p1) + p2) + p3, tail);
    var w4 := Apply(w3, tail[0]);
    var w5 := Apply(w4, tail[1]);
    assert ApplyAll(w3, tail) == w5 by {
      assert [tail[1]][1..] == [];
      assert ApplyAll(w4, [tail[1]]) == w5;
      assert tail[1..] == [tail[1]];
    }
    assert Shown(w5) == Shown(w3);
  }
}
