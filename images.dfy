/**
 * Bitmaps. An image in memory is an `array2<Rgba>` indexed [x, y], with
 * Length0 its width and Length1 its height; its bounds always start at the
 * origin. `Raster` is the value an image holds, and `Paint` is the
 * value-level meaning of drawing one image onto another with the Src
 * operator, which `DrawSrc` carries out in place.
 */
module Images {
  import opened Geometry

  /** A pixel; the colour-model conversion of the drawing library is taken as the identity. */
  datatype Rgba = Rgba(r: bv8, g: bv8, b: bv8, a: bv8)

  /** The value a freshly allocated canvas holds in every pixel. */
  const Transparent: Rgba := Rgba(0, 0, 0, 0)

  /** A possibly-missing image (a nil image value). */
  datatype Option<T> = None | Some(value: T)

  /**
   * The pixels of a width-by-height image: `At(x, y)` for 0 <= x < width
   * and 0 <= y < height (what it gives elsewhere does not matter).
   */
  datatype Raster = Raster(width: nat, height: nat, pixel: (int, int) -> Rgba)
  {
    ghost function At(x: int, y: int): Rgba
    {
      pixel(x, y)
    }
  }

  /** Two rasters of the same size that agree on every pixel: the same picture. */
  ghost predicate Same(p: Raster, q: Raster)
  {
    p.width == q.width && p.height == q.height &&
    forall x, y :: 0 <= x < p.width && 0 <= y < p.height ==> p.At(x, y) == q.At(x, y)
  }

  /** Two pictures that are each the same as a third are the same. */
  lemma SameTrans(p: Raster, q: Raster, s: Raster)
    requires Same(p, q) && Same(q, s)
    ensures Same(p, s)
  {
  }

  /** The width-by-height raster in which every pixel is `Transparent`. */
  ghost function Blank(width: nat, height: nat): (r: Raster)
    ensures r.width == width && r.height == height
    ensures forall x, y :: 0 <= x < width && 0 <= y < height ==> r.At(x, y) == Transparent
  {
    Raster(width, height, (_, _) => Transparent)
  }

  /** The pixels an image currently holds. */
  ghost function View(img: array2<Rgba>): (r: Raster)
    reads img
    ensures r.width == img.Length0 && r.height == img.Length1
    ensures forall x, y :: 0 <= x < img.Length0 && 0 <= y < img.Length1 ==> r.At(x, y) == img[x, y]
  {
    var snapshot := seq(img.Length0, x reads img =>
      seq(img.Length1, y reads img =>
        if 0 <= x < img.Length0 && 0 <= y < img.Length1 then img[x, y] else Transparent));
    Raster(img.Length0, img.Length1,
      (x, y) => if 0 <= x < |snapshot| && 0 <= y < |snapshot[x]| then snapshot[x][y] else Transparent)
  }

  /**
   * Whether drawing a srcWidth-by-srcHeight source at rectangle `r` writes
   * the canvas point p: p lies in `r` and in the source bounds moved to
   * r.min (the canvas bounds are checked by the caller).
   */
  predicate Covers(r: Rectangle, srcWidth: nat, srcHeight: nat, p: Point)
  {
    r.Contains(p) && r.min.x <= p.x < r.min.x + srcWidth && r.min.y <= p.y < r.min.y + srcHeight
  }

  /** The pixel at (x, y) after drawing `src` onto `dst` at `r`. */
  ghost function PaintedAt(dst: Raster, r: Rectangle, src: Raster, x: int, y: int): Rgba
  {
    if Covers(r, src.width, src.height, Point(x, y)) then src.At(x - r.min.x, y - r.min.y)
    else dst.At(x, y)
  }

  /**
   * Drawing `src` onto `dst` at rectangle `r` with the Src operator and source
   * point (0, 0): every canvas point of `r` that lies in the translated source
   * takes the source pixel at p - r.min; every other canvas pixel is kept.
   */
  ghost function Paint(dst: Raster, r: Rectangle, src: Raster): (c: Raster)
    ensures c.width == dst.width && c.height == dst.height
  {
    Raster(dst.width, dst.height, (x, y) => PaintedAt(dst, r, src, x, y))
  }

  /** Painting onto the same picture gives the same picture. */
  lemma PaintSame(d1: Raster, d2: Raster, r: Rectangle, src: Raster)
    requires Same(d1, d2)
    ensures Same(Paint(d1, r, src), Paint(d2, r, src))
  {
  }

  /**
   * Copying the source pixel into every point of the clip rectangle (the
   * draw rectangle cut down to the canvas and to the translated source) and
   * keeping every other pixel is drawing the source at that rectangle.
   */
  lemma ClippedPaint(after: Raster, before: Raster, r: Rectangle, src: Raster)
    requires after.width == before.width && after.height == before.height
    requires forall a, b :: 0 <= a < before.width && 0 <= b < before.height ==>
      after.At(a, b) ==
        if r.Intersect(Bounds(before.width, before.height)).Intersect(Bounds(src.width, src.height).Add(r.min)).Contains(Point(a, b))
        then src.At(a - r.min.x, b - r.min.y) else before.At(a, b)
    ensures Same(after, Paint(before, r, src))
  {
    var clip := r.Intersect(Bounds(before.width, before.height)).Intersect(Bounds(src.width, src.height).Add(r.min));
    forall a, b | 0 <= a < before.width && 0 <= b < before.height
      ensures after.At(a, b) == Paint(before, r, src).At(a, b)
    {
      assert clip.Contains(Point(a, b)) <==> Covers(r, src.width, src.height, Point(a, b));
    }
  }

  /** One column of the clipped copy: rows y0 to y1 of column x take the source pixel at p - offset. */
  method CopyColumn(dst: array2<Rgba>, src: array2<Rgba>, offset: Point, x: int, y0: int, y1: int)
    requires dst != src
    requires 0 <= x < dst.Length0 && offset.x <= x < offset.x + src.Length0
    requires 0 <= y0 <= y1 <= dst.Length1 && offset.y <= y0 && y1 <= offset.y + src.Length1
    modifies dst
    ensures forall a, b :: 0 <= a < dst.Length0 && 0 <= b < dst.Length1 ==>
      dst[a, b] == if a == x && y0 <= b < y1 then src[a - offset.x, b - offset.y] else old(dst[a, b])
  {
    var y := y0;
    while y < y1
      invariant y0 <= y <= y1
      invariant forall a, b :: 0 <= a < dst.Length0 && 0 <= b < dst.Length1 ==>
        dst[a, b] == if a == x && y0 <= b < y then src[a - offset.x, b - offset.y] else old(dst[a, b])
    {
      dst[x, y] := src[x - offset.x, y - offset.y];
      y := y + 1;
    }
  }

  /**
   * The copy loop of the drawing operation: every point p of the clip
   * rectangle takes the source pixel at p - offset, column by column;
   * every other canvas pixel is kept.
   */
  method CopyRect(dst: array2<Rgba>, src: array2<Rgba>, offset: Point, clip: Rectangle)
    requires dst != src
    requires 0 <= clip.min.x && clip.max.x <= dst.Length0 && offset.x <= clip.min.x && clip.max.x <= offset.x + src.Length0
    requires 0 <= clip.min.y && clip.max.y <= dst.Length1 && offset.y <= clip.min.y && clip.max.y <= offset.y + src.Length1
    modifies dst
    ensures forall a, b :: 0 <= a < dst.Length0 && 0 <= b < dst.Length1 ==>
      dst[a, b] == if clip.min.x <= a < clip.max.x && clip.min.y <= b < clip.max.y then src[a - offset.x, b - offset.y] else old(dst[a, b])
  {
    if clip.Empty() {
      return;
    }
    var x := clip.min.x;
    while x < clip.max.x
      invariant clip.min.x <= x <= clip.max.x
      invariant forall a, b :: 0 <= a < dst.Length0 && 0 <= b < dst.Length1 ==>
        dst[a, b] == if clip.min.x <= a < x && clip.min.y <= b < clip.max.y then src[a - offset.x, b - offset.y] else old(dst[a, b])
    {
      CopyColumn(dst, src, offset, x, clip.min.y, clip.max.y);
      x := x + 1;
    }
  }

  /**
   * draw.Draw(dst, r, src, (0, 0), draw.Src): clip `r` to the canvas and to
   * the translated source, then copy the source pixels inside the clip.
   */
  method DrawSrc(dst: array2<Rgba>, r: Rectangle, src: array2<Rgba>)
    requires dst != src
    modifies dst
    ensures Same(View(dst), Paint(old(View(dst)), r, View(src)))
  {
    ghost var before := View(dst);
    var clip := r.Intersect(Bounds(dst.Length0, dst.Length1)).Intersect(Bounds(src.Length0, src.Length1).Add(r.min));
    assert 0 <= clip.min.x && clip.max.x <= dst.Length0 && r.min.x <= clip.min.x && clip.max.x <= r.min.x + src.Length0;
    assert 0 <= clip.min.y && clip.max.y <= dst.Length1 && r.min.y <= clip.min.y && clip.max.y <= r.min.y + src.Length1;
    CopyRect(dst, src, r.min, clip);
    ghost var after := View(dst);
    ghost var source := View(src);
    forall a, b | 0 <= a < dst.Length0 && 0 <= b < dst.Length1
      ensures after.At(a, b) == if clip.Contains(Point(a, b)) then source.At(a - r.min.x, b - r.min.y) else before.At(a, b)
    {
      assert after.At(a, b) == dst[a, b];
      assert before.At(a, b) == old(dst[a, b]);
      assert dst[a, b] == if clip.min.x <= a < clip.max.x && clip.min.y <= b < clip.max.y then src[a - r.min.x, b - r.min.y] else old(dst[a, b]);
      if clip.Contains(Point(a, b)) {
        assert source.At(a - r.min.x, b - r.min.y) == src[a - r.min.x, b - r.min.y];
      }
    }
    ClippedPaint(after, before, r, source);
  }
}
