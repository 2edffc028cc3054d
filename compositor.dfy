/**
 * Merging images: two at a time side by side or one above the other, a
 * whole group by a left fold, and the final composite of today's stack
 * beside tomorrow's stack.
 *
 * A pairwise merge allocates a transparent canvas from the origin to the far
 * corner of the second image's placement, draws the first image at the
 * origin and then the second at its offset. The canvas takes its cross-axis
 * size from the second image alone, so a taller (or wider) first image is
 * clipped rather than padded.
 */
module Compositor {
  import opened Geometry
  import opened Images

  /**
   * The pixel at (x, y) of `a` and `b` side by side on a canvas as high as
   * `b`: left of a.width it is `a` where `a` has rows and transparent below
   * them (rows of `a` beyond b's height are dropped); right of it, `b`.
   */
  ghost function BesideAt(a: Raster, b: Raster, x: int, y: int): (c: Rgba)
  {
    if x < a.width then (if y < a.height then a.At(x, y) else Transparent)
    else b.At(x - a.width, y)
  }

  /** `a` and `b` side by side: as wide as both and as high as `b`. */
  ghost function Beside(a: Raster, b: Raster): (c: Raster)
    ensures c.width == a.width + b.width && c.height == b.height
  {
    Raster(a.width + b.width, b.height, (x, y) => BesideAt(a, b, x, y))
  }

  /**
   * The pixel at (x, y) of `a` above `b` on a canvas as wide as `b`: above
   * a.height it is `a` where `a` has columns and transparent beside them
   * (columns of `a` beyond b's width are dropped); below it, `b`.
   */
  ghost function StackAt(a: Raster, b: Raster, x: int, y: int): (c: Rgba)
  {
    if y < a.height then (if x < a.width then a.At(x, y) else Transparent)
    else b.At(x, y - a.height)
  }

  /** `a` above `b`: as high as both and as wide as `b`. */
  ghost function Stack(a: Raster, b: Raster): (c: Raster)
    ensures c.width == b.width && c.height == a.height + b.height
  {
    Raster(b.width, a.height + b.height, (x, y) => StackAt(a, b, x, y))
  }

  /**
   * The drawing steps of mergeTwoHorizontal produce the side-by-side layout:
   * a transparent canvas from the origin to (a.width + b.width, b.height),
   * `a` drawn at its own bounds, then `b` drawn at the rectangle of its size
   * starting at (a.width, 0).
   */
  lemma BesideIsDrawn(a: Raster, b: Raster)
    ensures Same(Paint(Paint(Blank(a.width + b.width, b.height), Bounds(a.width, a.height), a),
                       Rectangle(Point(a.width, 0), Point(a.width + b.width, b.height)), b),
                 Beside(a, b))
  {
  }

  /**
   * The drawing steps of mergeTwoVertical produce the stacked layout: a
   * transparent canvas from the origin to (b.width, a.height + b.height), `a`
   * drawn at its own bounds, then `b` drawn at the rectangle of its size
   * starting at (0, a.height).
   */
  lemma StackIsDrawn(a: Raster, b: Raster)
    ensures Same(Paint(Paint(Blank(b.width, a.height + b.height), Bounds(a.width, a.height), a),
                       Rectangle(Point(0, a.height), Point(b.width, a.height + b.height)), b),
                 Stack(a, b))
  {
  }

  /** Merging the same pictures side by side gives the same picture. */
  lemma BesideSame(a1: Raster, a2: Raster, b1: Raster, b2: Raster)
    requires Same(a1, a2) && Same(b1, b2)
    ensures Same(Beside(a1, b1), Beside(a2, b2))
  {
  }

  /** Stacking the same pictures gives the same picture. */
  lemma StackSame(a1: Raster, a2: Raster, b1: Raster, b2: Raster)
    requires Same(a1, a2) && Same(b1, b2)
    ensures Same(Stack(a1, b1), Stack(a2, b2))
  {
  }

  /** The canvas states of mergeTwoHorizontal, from the transparent canvas to the layout. */
  lemma DrawnBeside(blank: Raster, first: Raster, last: Raster, a: Raster, b: Raster)
    requires Same(blank, Blank(a.width + b.width, b.height))
    requires Same(first, Paint(blank, Bounds(a.width, a.height), a))
    requires Same(last, Paint(first, Rectangle(Point(a.width, 0), Point(a.width + b.width, b.height)), b))
    ensures Same(last, Beside(a, b))
  {
    var r2 := Rectangle(Point(a.width, 0), Point(a.width + b.width, b.height));
    var firstValue := Paint(Blank(a.width + b.width, b.height), Bounds(a.width, a.height), a);
    PaintSame(blank, Blank(a.width + b.width, b.height), Bounds(a.width, a.height), a);
    SameTrans(first, Paint(blank, Bounds(a.width, a.height), a), firstValue);
    PaintSame(first, firstValue, r2, b);
    BesideIsDrawn(a, b);
    SameTrans(last, Paint(first, r2, b), Paint(firstValue, r2, b));
    SameTrans(last, Paint(firstValue, r2, b), Beside(a, b));
  }

  /** The canvas states of mergeTwoVertical, from the transparent canvas to the layout. */
  lemma DrawnStack(blank: Raster, first: Raster, last: Raster, a: Raster, b: Raster)
    requires Same(blank, Blank(b.width, a.height + b.height))
    requires Same(first, Paint(blank, Bounds(a.width, a.height), a))
    requires Same(last, Paint(first, Rectangle(Point(0, a.height), Point(b.width, a.height + b.height)), b))
    ensures Same(last, Stack(a, b))
  {
    var r2 := Rectangle(Point(0, a.height), Point(b.width, a.height + b.height));
    var firstValue := Paint(Blank(b.width, a.height + b.height), Bounds(a.width, a.height), a);
    PaintSame(blank, Blank(b.width, a.height + b.height), Bounds(a.width, a.height), a);
    SameTrans(first, Paint(blank, Bounds(a.width, a.height), a), firstValue);
    PaintSame(first, firstValue, r2, b);
    StackIsDrawn(a, b);
    SameTrans(last, Paint(first, r2, b), Paint(firstValue, r2, b));
    SameTrans(last, Paint(firstValue, r2, b), Stack(a, b));
  }

  /** mergeTwoHorizontal: the second image is drawn at (img1 width, 0). */
  method MergeTwoHorizontal(img1: array2<Rgba>, img2: array2<Rgba>) returns (rgba: array2<Rgba>)
    ensures fresh(rgba)
    ensures rgba.Length0 == img1.Length0 + img2.Length0 && rgba.Length1 == img2.Length1
    ensures Same(View(rgba), Beside(View(img1), View(img2)))
  {
    var sp2 := Point(Bounds(img1.Length0, img1.Length1).Dx(), 0);
    var r2 := Rectangle(sp2, sp2.Add(Bounds(img2.Length0, img2.Length1).Size()));
    var r := Rectangle(Point(0, 0), r2.max);
    rgba := new Rgba[r.max.x, r.max.y]((_, _) => Transparent);
    ghost var blank := View(rgba);
    assert Same(blank, Blank(r.max.x, r.max.y));
    DrawSrc(rgba, Bounds(img1.Length0, img1.Length1), img1);
    ghost var first := View(rgba);
    DrawSrc(rgba, r2, img2);
    assert r2 == Rectangle(Point(img1.Length0, 0), Point(img1.Length0 + img2.Length0, img2.Length1));
    DrawnBeside(blank, first, View(rgba), View(img1), View(img2));
  }

  /** mergeTwoVertical: the second image is drawn at (0, img1 height). */
  method MergeTwoVertical(img1: array2<Rgba>, img2: array2<Rgba>) returns (rgba: array2<Rgba>)
    ensures fresh(rgba)
    ensures rgba.Length0 == img2.Length0 && rgba.Length1 == img1.Length1 + img2.Length1
    ensures Same(View(rgba), Stack(View(img1), View(img2)))
  {
    var sp2 := Point(0, Bounds(img1.Length0, img1.Length1).Dy());
    var r2 := Rectangle(sp2, sp2.Add(Bounds(img2.Length0, img2.Length1).Size()));
    var r := Rectangle(Point(0, 0), r2.max);
    rgba := new Rgba[r.max.x, r.max.y]((_, _) => Transparent);
    ghost var blank := View(rgba);
    assert Same(blank, Blank(r.max.x, r.max.y));
    DrawSrc(rgba, Bounds(img1.Length0, img1.Length1), img1);
    ghost var first := View(rgba);
    DrawSrc(rgba, r2, img2);
    assert r2 == Rectangle(Point(0, img1.Length1), Point(img2.Length0, img1.Length1 + img2.Length1));
    DrawnStack(blank, first, View(rgba), View(img1), View(img2));
  }

  /** The sum of the heights. */
  ghost function Heights(rs: seq<Raster>): (h: nat)
  {
    if rs == [] then 0 else Heights(rs[..|rs| - 1]) + rs[|rs| - 1].height
  }

  /** The sum of the widths. */
  ghost function Widths(rs: seq<Raster>): (w: nat)
  {
    if rs == [] then 0 else Widths(rs[..|rs| - 1]) + rs[|rs| - 1].width
  }

  /**
   * The left fold of `Stack` over a non-empty group: as high as all the
   * images together and as wide as the last one.
   */
  ghost function StackAll(rs: seq<Raster>): (r: Raster)
    requires |rs| >= 1
    ensures r.height == Heights(rs) && r.width == rs[|rs| - 1].width
    decreases |rs|
  {
    if |rs| == 1 then
      assert rs[..0] == [];
      rs[0]
    else
      Stack(StackAll(rs[..|rs| - 1]), rs[|rs| - 1])
  }

  /**
   * The left fold of `Beside` over a non-empty group: as wide as all the
   * images together and as high as the last one.
   */
  ghost function BesideAll(rs: seq<Raster>): (r: Raster)
    requires |rs| >= 1
    ensures r.width == Widths(rs) && r.height == rs[|rs| - 1].height
    decreases |rs|
  {
    if |rs| == 1 then
      assert rs[..0] == [];
      rs[0]
    else
      Beside(BesideAll(rs[..|rs| - 1]), rs[|rs| - 1])
  }

  /** One more step of the stacking fold: merging what is stacked so far with the next image. */
  lemma StackAllStep(rs: seq<Raster>, k: int, sofar: Raster, merged: Raster)
    requires 1 <= k < |rs|
    requires Same(sofar, StackAll(rs[..k])) && Same(merged, Stack(sofar, rs[k]))
    ensures Same(merged, StackAll(rs[..k + 1]))
  {
    assert rs[..k + 1][..k] == rs[..k];
    StackSame(sofar, StackAll(rs[..k]), rs[k], rs[k]);
    SameTrans(merged, Stack(sofar, rs[k]), StackAll(rs[..k + 1]));
  }

  /** One more step of the side-by-side fold: merging what is merged so far with the next image. */
  lemma BesideAllStep(rs: seq<Raster>, k: int, sofar: Raster, merged: Raster)
    requires 1 <= k < |rs|
    requires Same(sofar, BesideAll(rs[..k])) && Same(merged, Beside(sofar, rs[k]))
    ensures Same(merged, BesideAll(rs[..k + 1]))
  {
    assert rs[..k + 1][..k] == rs[..k];
    BesideSame(sofar, BesideAll(rs[..k]), rs[k], rs[k]);
    SameTrans(merged, Beside(sofar, rs[k]), BesideAll(rs[..k + 1]));
  }

  /** The images before the k-th take up no more height than all of them without it. */
  lemma {:induction false} HeightsPrefix(rs: seq<Raster>, k: int)
    requires 0 <= k < |rs|
    ensures Heights(rs[..k]) + rs[k].height <= Heights(rs)
  {
    var n := |rs|;
    if k < n - 1 {
      HeightsPrefix(rs[..n - 1], k);
      assert rs[..n - 1][..k] == rs[..k];
    }
  }

  /** The images before the k-th take up no more width than all of them without it. */
  lemma {:induction false} WidthsPrefix(rs: seq<Raster>, k: int)
    requires 0 <= k < |rs|
    ensures Widths(rs[..k]) + rs[k].width <= Widths(rs)
  {
    var n := |rs|;
    if k < n - 1 {
      WidthsPrefix(rs[..n - 1], k);
      assert rs[..n - 1][..k] == rs[..k];
    }
  }

  /** A pixel of a stack of two or more images: from the stack of all but the last, or from the last. */
  lemma StackAllLast(rs: seq<Raster>, x: int, y: int)
    requires |rs| >= 2 && 0 <= x < rs[|rs| - 1].width && 0 <= y < Heights(rs)
    ensures var init := rs[..|rs| - 1];
      StackAll(rs).At(x, y) ==
        if y < Heights(init) then (if x < rs[|rs| - 2].width then StackAll(init).At(x, y) else Transparent)
        else rs[|rs| - 1].At(x, y - Heights(init))
  {
  }

  /** A pixel of a row of two or more images: from the row of all but the last, or from the last. */
  lemma BesideAllLast(rs: seq<Raster>, x: int, y: int)
    requires |rs| >= 2 && 0 <= x < Widths(rs) && 0 <= y < rs[|rs| - 1].height
    ensures var init := rs[..|rs| - 1];
      BesideAll(rs).At(x, y) ==
        if x < Widths(init) then (if y < rs[|rs| - 2].height then BesideAll(init).At(x, y) else Transparent)
        else rs[|rs| - 1].At(x - Widths(init), y)
  {
  }

  /**
   * When every image of a group has the same width, stacking crops nothing:
   * each pixel of the k-th image appears in the result, moved down by the
   * heights of the images before it.
   */
  lemma {:induction false} StackAllKeepsEqualWidths(rs: seq<Raster>, k: int, x: int, y: int)
    requires |rs| >= 1
    requires forall i :: 0 <= i < |rs| ==> rs[i].width == rs[0].width
    requires 0 <= k < |rs| && 0 <= x < rs[k].width && 0 <= y < rs[k].height
    ensures Heights(rs[..k]) + y < Heights(rs)
    ensures StackAll(rs).At(x, Heights(rs[..k]) + y) == rs[k].At(x, y)
    decreases |rs|, 1
  {
    HeightsPrefix(rs, k);
    if |rs| == 1 {
      assert rs[..k] == [];
    } else if k == |rs| - 1 {
      assert rs[..k] == rs[..|rs| - 1];
      StackAllLast(rs, x, Heights(rs[..k]) + y);
    } else {
      StackAllKeepsEarlier(rs, k, x, y);
    }
  }

  /** The inductive step of StackAllKeepsEqualWidths: an image before the last one. */
  lemma {:induction false} StackAllKeepsEarlier(rs: seq<Raster>, k: int, x: int, y: int)
    requires |rs| >= 2
    requires forall i :: 0 <= i < |rs| ==> rs[i].width == rs[0].width
    requires 0 <= k < |rs| - 1 && 0 <= x < rs[k].width && 0 <= y < rs[k].height
    ensures StackAll(rs).At(x, Heights(rs[..k]) + y) == rs[k].At(x, y)
    decreases |rs|, 0
  {
    var init := rs[..|rs| - 1];
    assert init[..k] == rs[..k] && init[k] == rs[k];
    StackAllKeepsEqualWidths(init, k, x, y);
    StackAllLast(rs, x, Heights(rs[..k]) + y);
  }

  /**
   * When every image of a group has the same height, merging side by side
   * crops nothing: each pixel of the k-th image appears in the result, moved
   * right by the widths of the images before it.
   */
  lemma {:induction false} BesideAllKeepsEqualHeights(rs: seq<Raster>, k: int, x: int, y: int)
    requires |rs| >= 1
    requires forall i :: 0 <= i < |rs| ==> rs[i].height == rs[0].height
    requires 0 <= k < |rs| && 0 <= x < rs[k].width && 0 <= y < rs[k].height
    ensures Widths(rs[..k]) + x < Widths(rs)
    ensures BesideAll(rs).At(Widths(rs[..k]) + x, y) == rs[k].At(x, y)
    decreases |rs|, 1
  {
    WidthsPrefix(rs, k);
    if |rs| == 1 {
      assert rs[..k] == [];
    } else if k == |rs| - 1 {
      assert rs[..k] == rs[..|rs| - 1];
      BesideAllLast(rs, Widths(rs[..k]) + x, y);
    } else {
      BesideAllKeepsEarlier(rs, k, x, y);
    }
  }

  /** The inductive step of BesideAllKeepsEqualHeights: an image before the last one. */
  lemma {:induction false} BesideAllKeepsEarlier(rs: seq<Raster>, k: int, x: int, y: int)
    requires |rs| >= 2
    requires forall i :: 0 <= i < |rs| ==> rs[i].height == rs[0].height
    requires 0 <= k < |rs| - 1 && 0 <= x < rs[k].width && 0 <= y < rs[k].height
    ensures BesideAll(rs).At(Widths(rs[..k]) + x, y) == rs[k].At(x, y)
    decreases |rs|, 0
  {
    var init := rs[..|rs| - 1];
    assert init[..k] == rs[..k] && init[k] == rs[k];
    BesideAllKeepsEqualHeights(init, k, x, y);
    WidthsPrefix(rs, |rs| - 1);
    BesideAllLast(rs, Widths(rs[..k]) + x, y);
  }

  /** No image of the group is nil. */
  ghost predicate AllLoaded(imgs: seq<Option<array2<Rgba>>>)
  {
    forall i :: 0 <= i < |imgs| ==> imgs[i].Some?
  }

  /** The arrays behind the non-nil images of a group. */
  ghost function Arrays(imgs: seq<Option<array2<Rgba>>>): set<array2<Rgba>>
  {
    set i | 0 <= i < |imgs| && imgs[i].Some? :: imgs[i].value
  }

  /** The pixels each image of a fully loaded group holds. */
  ghost function Views(imgs: seq<Option<array2<Rgba>>>): (rs: seq<Raster>)
    requires AllLoaded(imgs)
    reads Arrays(imgs)
    ensures |rs| == |imgs|
    ensures forall i :: 0 <= i < |imgs| ==> rs[i] == View(imgs[i].value)
  {
    if imgs == [] then []
    else
      assert Arrays(imgs[..|imgs| - 1]) <= Arrays(imgs);
      Views(imgs[..|imgs| - 1]) + [View(imgs[|imgs| - 1].value)]
  }

  /** The pictures of a group stay the same while none of its arrays changes. */
  twostate lemma ViewsUnchanged(imgs: seq<Option<array2<Rgba>>>)
    requires AllLoaded(imgs) && unchanged(Arrays(imgs))
    ensures Views(imgs) == old(Views(imgs))
  {
  }

  /**
   * mergeVertical: nil for an empty group, the first image itself otherwise,
   * merged in turn with each following image below it.
   */
  method MergeVertical(imgs: seq<Option<array2<Rgba>>>) returns (img: Option<array2<Rgba>>)
    requires |imgs| >= 2 ==> AllLoaded(imgs)
    ensures |imgs| == 0 ==> img == None
    ensures |imgs| == 1 ==> img == imgs[0]
    ensures |imgs| >= 1 && AllLoaded(imgs) ==> img.Some? && Same(View(img.value), StackAll(Views(imgs)))
    ensures |imgs| >= 2 ==> img.Some? && fresh(img.value)
  {
    if |imgs| < 1 {
      return None;
    }
    img := imgs[0];
    if |imgs| == 1 {
      return;
    }
    ghost var rs := Views(imgs);
    assert rs[..1] == [rs[0]];
    for k := 1 to |imgs|
      invariant img.Some? && (k > 1 ==> fresh(img.value))
      invariant Same(View(img.value), StackAll(rs[..k]))
      invariant Views(imgs) == rs
    {
      ghost var sofar := View(img.value);
      var merged := MergeTwoVertical(img.value, imgs[k].value);
      ViewsUnchanged(imgs);
      StackAllStep(rs, k, sofar, View(merged));
      img := Some(merged);
    }
    assert rs[..|imgs|] == rs;
  }

  /**
   * mergeHorizontal: nil for an empty group, the first image itself
   * otherwise, merged in turn with each following image to its right.
   */
  method MergeHorizontal(imgs: seq<Option<array2<Rgba>>>) returns (img: Option<array2<Rgba>>)
    requires |imgs| >= 2 ==> AllLoaded(imgs)
    ensures |imgs| == 0 ==> img == None
    ensures |imgs| == 1 ==> img == imgs[0]
    ensures |imgs| >= 1 && AllLoaded(imgs) ==> img.Some? && Same(View(img.value), BesideAll(Views(imgs)))
    ensures |imgs| >= 2 ==> img.Some? && fresh(img.value)
  {
    if |imgs| < 1 {
      return None;
    }
    img := imgs[0];
    if |imgs| == 1 {
      return;
    }
    ghost var rs := Views(imgs);
    assert rs[..1] == [rs[0]];
    for k := 1 to |imgs|
      invariant img.Some? && (k > 1 ==> fresh(img.value))
      invariant Same(View(img.value), BesideAll(rs[..k]))
      invariant Views(imgs) == rs
    {
      ghost var sofar := View(img.value);
      var merged := MergeTwoHorizontal(img.value, imgs[k].value);
      ViewsUnchanged(imgs);
      BesideAllStep(rs, k, sofar, View(merged));
      img := Some(merged);
    }
    assert rs[..|imgs|] == rs;
  }

  /** Merging pictures that are the same as the two stacks gives the stacks side by side. */
  lemma ComposedSame(v1: Raster, t1: Raster, v2: Raster, t2: Raster, c: Raster)
    requires Same(v1, t1) && Same(v2, t2) && Same(c, Beside(v1, v2))
    ensures Same(c, Beside(t1, t2))
  {
  }

  /**
   * The final composite: today's images stacked, tomorrow's images stacked,
   * and the two stacks side by side. Both groups must be non-empty and
   * fully loaded, since a nil group result is dereferenced.
   */
  method ComposeTimetables(todaysImages: seq<Option<array2<Rgba>>>, tomorrowsImages: seq<Option<array2<Rgba>>>)
    returns (composite: array2<Rgba>)
    requires |todaysImages| >= 1 && AllLoaded(todaysImages)
    requires |tomorrowsImages| >= 1 && AllLoaded(tomorrowsImages)
    ensures fresh(composite)
    ensures composite.Length0 == todaysImages[|todaysImages| - 1].value.Length0 + tomorrowsImages[|tomorrowsImages| - 1].value.Length0
    ensures composite.Length1 == Heights(Views(tomorrowsImages))
    ensures Same(View(composite), Beside(StackAll(Views(todaysImages)), StackAll(Views(tomorrowsImages))))
  {
    ghost var todays := Views(todaysImages);
    ghost var tomorrows := Views(tomorrowsImages);
    var img1 := MergeVertical(todaysImages);
    ViewsUnchanged(todaysImages);
    ghost var stacked1 := View(img1.value);
    assert Same(stacked1, StackAll(todays));
    var img2 := MergeVertical(tomorrowsImages);
    ViewsUnchanged(tomorrowsImages);
    ghost var stacked2 := View(img2.value);
    assert Same(stacked2, StackAll(tomorrows));
    composite := MergeTwoHorizontal(img1.value, img2.value);
    ComposedSame(stacked1, StackAll(todays), stacked2, StackAll(tomorrows), View(composite));
    ViewsUnchanged(todaysImages);
    ViewsUnchanged(tomorrowsImages);
  }
}
