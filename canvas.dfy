/**
 * The viewport of browser/static/js/canvas.js: the `CanvasState` that maps
 * the mouse to image pixels, and the undoable `Pan` and `Zoom` commands that
 * move and scale the visible window of the image.
 *
 * Coordinates are exact reals where JavaScript uses floating point.
 */
module Canvas {
  import opened Wrappers

  function Abs(v: int): nat {
    if v < 0 then -v else v
  }

  function MinR(a: real, b: real): real {
    if a <= b then a else b
  }

  function MaxR(a: real, b: real): real {
    if a >= b then a else b
  }

  /**
   * `Math.min(Math.max(want, -pos), room - pos)`: the shift of a window
   * edge at `pos` towards `want`, stopped at 0 and at `room`. Wherever the
   * edge starts, the shifted edge lands in `[0, room]` when there is room.
   */
  function ClampShift(want: real, pos: real, room: real): (d: real)
    ensures 0.0 <= room ==> 0.0 <= pos + d <= room
    ensures -pos <= want <= room - pos ==> d == want
    ensures 0.0 <= room && want < -pos ==> d == -pos
    ensures 0.0 <= room && want > room - pos ==> d == room - pos
  {
    MinR(MaxR(want, -pos), room - pos)
  }

  /** A label image of `height` rows of `width` pixels. */
  predicate Shaped(seg: seq<seq<int>>, width: nat, height: nat) {
    |seg| == height && forall y :: 0 <= y < |seg| ==> |seg[y]| == width
  }

  /** The value of `label`: a label's absolute value, or NaN. */
  datatype Label = Num(value: nat) | NaN

  /** The one JavaScript error the modelled code can raise. */
  datatype JsError = TypeError

  /**
   * `Math.abs(seg[y][x])` as JavaScript evaluates it. Indexing `null`, or
   * the `undefined` that a row outside the array (or a `null` row index)
   * gives, throws a TypeError; a pixel outside an existing row is
   * `undefined`, whose absolute value is NaN.
   */
  function Lookup(seg: Option<seq<seq<int>>>, x: Option<int>, y: Option<int>): (r: Result<Label, JsError>)
    ensures r.Err? <==> seg.None? || y.None? || !(0 <= y.value < |seg.value|)
    ensures r.Ok? ==> (r.value == NaN <==> x.None? || !(0 <= x.value < |seg.value[y.value]|))
    ensures r.Ok? && r.value.Num? ==> r.value.value == Abs(seg.value[y.value][x.value])
  {
    if seg.None? || y.None? || !(0 <= y.value < |seg.value|) then Err(TypeError)
    else
      var row := seg.value[y.value];
      if x.None? || !(0 <= x.value < |row|) then Ok(NaN)
      else Ok(Num(Abs(row[x.value])))
  }

  /** Inside a label image of the right shape, a lookup gives the label's absolute value. */
  lemma LookupShaped(seg: seq<seq<int>>, width: nat, height: nat, x: int, y: int)
    requires Shaped(seg, width, height) && 0 <= x < width && 0 <= y < height
    ensures Lookup(Some(seg), Some(x), Some(y)) == Ok(Num(Abs(seg[y][x])))
  {
  }

  /** Every field of a `CanvasState` that the modelled methods can change. */
  datatype View = View(
    sx: real, sy: real, sWidth: real, sHeight: real, zoom: real,
    rawX: real, rawY: real, canvasPosX: real, canvasPosY: real,
    imgX: Option<int>, imgY: Option<int>, cursorLabel: Label,
    segArray: Option<seq<seq<int>>>, trace: seq<(int, int)>)

  /** What running a JavaScript method leaves behind, and whether it stopped at a TypeError. */
  datatype Outcome = Outcome(view: View, threw: bool)

  /** The source width of the window at a zoom level, in image pixels. */
  function Extent(size: nat, zoom: real): real
    requires zoom > 0.0
  {
    size as real * 100.0 / zoom
  }

  /** At 100% zoom or more the window is no larger than the image. */
  lemma ExtentFits(size: nat, zoom: real)
    requires zoom >= 100.0
    ensures 0.0 <= Extent(size, zoom) <= size as real
  {
    var s := size as real;
    assert s * 100.0 <= s * zoom;
    assert s * 100.0 / zoom <= s * zoom / zoom;
  }

  lemma PositiveProduct(a: real, b: real)
    requires a > 0.0 && b > 0.0
    ensures a * b > 0.0
  {
  }

  /** The image index under a pane position: `Math.floor(pos * 100 / (scale * zoom) + start)`. */
  function ImageIndex(pos: real, scale: real, zoom: real, start: real): int
    requires scale > 0.0 && zoom > 0.0
  {
    PositiveProduct(scale, zoom);
    (pos * 100.0 / (scale * zoom) + start).Floor
  }

  /** A pane position over the image maps to an index inside the image when the window is. */
  lemma IndexInside(pos: real, scale: real, zoom: real, size: nat, start: real)
    requires scale > 0.0 && zoom > 0.0
    requires 0.0 <= pos < scale * size as real
    requires 0.0 <= start <= size as real - Extent(size, zoom)
    ensures 0 <= ImageIndex(pos, scale, zoom, start) < size
  {
    var s := size as real;
    PositiveProduct(scale, zoom);
    var t := pos * 100.0 / (scale * zoom);
    var u := pos / scale;
    assert u < s by {
      assert u * scale == pos;
    }
    assert t == u * (100.0 / zoom);
    assert Extent(size, zoom) == s * (100.0 / zoom);
    assert 0.0 <= t < Extent(size, zoom);
    assert 0.0 <= t + start < s;
  }

  class CanvasState {
    const width: nat
    const height: nat
    const scale: real
    const padding: real
    const zoomLimit: real := 100.0

    var sx: real
    var sy: real
    var sWidth: real
    var sHeight: real
    var zoom: real
    var rawX: real
    var rawY: real
    var canvasPosX: real
    var canvasPosY: real
    var imgX: Option<int>
    var imgY: Option<int>
    /** `label`: the label under the cursor. */
    var cursorLabel: Label
    var segArray: Option<seq<seq<int>>>
    var trace: seq<(int, int)>

    function State(): View
      reads this
    {
      View(sx, sy, sWidth, sHeight, zoom, rawX, rawY, canvasPosX, canvasPosY,
           imgX, imgY, cursorLabel, segArray, trace)
    }

    /**
     * What every method keeps: the image and its scale are not empty, the
     * zoom is at least its limit, and the window has the size the zoom
     * gives it. Where the window lies is not part of it: `Pan.undo` can
     * move it off the image.
     */
    ghost predicate Sane(v: View) {
      && width > 0 && height > 0 && scale > 0.0
      && v.zoom >= zoomLimit
      && v.sWidth == Extent(width, v.zoom) && v.sHeight == Extent(height, v.zoom)
    }

    /** The window lies inside the image. */
    ghost predicate Inside(v: View) {
      && 0.0 <= v.sx <= width as real - v.sWidth
      && 0.0 <= v.sy <= height as real - v.sHeight
    }

    ghost predicate Valid()
      reads this
    {
      Sane(State())
    }

    ghost predicate WindowInImage()
      reads this
    {
      Inside(State())
    }

    constructor (width: nat, height: nat, scale: real, padding: real)
      requires width > 0 && height > 0 && scale > 0.0
      ensures this.width == width && this.height == height && this.scale == scale && this.padding == padding
      ensures State() == View(0.0, 0.0, width as real, height as real, 100.0, 0.0, 0.0, -padding, -padding,
                              None, None, Num(0), None, [])
      ensures Valid() && WindowInImage()
    {
      this.width := width;
      this.height := height;
      this.scale := scale;
      this.padding := padding;
      sx := 0.0;
      sy := 0.0;
      sWidth := width as real;
      sHeight := height as real;
      zoom := 100.0;
      rawX := 0.0;
      rawY := 0.0;
      canvasPosX := -1.0 * padding;
      canvasPosY := -1.0 * padding;
      imgX := None;
      imgY := None;
      cursorLabel := Num(0);
      segArray := None;
      trace := [];
    }

    /** `scaledWidth`: the image's width in pane pixels, `scale` of them per image pixel. */
    function ScaledWidth(): (w: real)
      ensures scale > 0.0 ==> w / scale == width as real
      ensures scale > 0.0 ==> (w > 0.0 <==> width > 0)
    {
      scale * width as real
    }

    /** `scaledHeight`: the image's height in pane pixels, `scale` of them per image pixel. */
    function ScaledHeight(): (h: real)
      ensures scale > 0.0 ==> h / scale == height as real
      ensures scale > 0.0 ==> (h > 0.0 <==> height > 0)
    {
      scale * height as real
    }

    /**
     * Whether a pane position lies over the displayed image: measured in image
     * pixels it is neither left of nor above the image and falls short of its
     * width and height.
     */
    predicate InRangeAt(posX: real, posY: real): (r: bool)
      ensures scale > 0.0 ==>
        (r <==> 0.0 <= posX / scale < width as real && 0.0 <= posY / scale < height as real)
    {
      0.0 <= posX < ScaledWidth() && 0.0 <= posY < ScaledHeight()
    }

    /** `inRange`: whether the recorded cursor lies over the displayed image. */
    predicate InRange(): (r: bool)
      reads this
      ensures scale > 0.0 ==>
        (r <==> 0.0 <= canvasPosX / scale < width as real && 0.0 <= canvasPosY / scale < height as real)
    {
      InRangeAt(canvasPosX, canvasPosY)
    }

    /**
     * What the `segArray` setter assigns to `label` for the label image
     * `seg`: 0 off the image; over it, the lookup at the stored indices,
     * which throws before any mouse move has stored them and, over a label
     * image of the right shape, is the label's absolute value when they lie
     * in the image.
     */
    function LabelAt(seg: seq<seq<int>>): (r: Result<Label, JsError>)
      reads this
      ensures !InRange() ==> r == Ok(Num(0))
      ensures InRange() ==> r == Lookup(Some(seg), imgX, imgY)
      ensures InRange() && imgY.None? ==> r == Err(TypeError)
      ensures InRange() && Shaped(seg, width, height) && imgX.Some? && imgY.Some? &&
              0 <= imgX.value < width && 0 <= imgY.value < height ==>
        r == Ok(Num(Abs(seg[imgY.value][imgX.value])))
    {
      if InRange() then Lookup(Some(seg), imgX, imgY) else Ok(Num(0))
    }

    /**
     * The `segArray` setter: the label image is stored first, so it is
     * kept even when reading the label throws, which leaves the label as it was.
     */
    method SetSegArray(seg: seq<seq<int>>) returns (ok: bool)
      modifies this
      ensures ok <==> old(LabelAt(seg)).Ok?
      ensures State() == old(State()).(segArray := Some(seg),
                                       cursorLabel := if ok then old(LabelAt(seg)).value else old(cursorLabel))
      ensures Valid() == old(Valid()) && WindowInImage() == old(WindowInImage())
    {
      segArray := Some(seg);
      if InRange() {
        var r := Lookup(segArray, imgX, imgY);
        if r.Ok? {
          cursorLabel := r.value;
          ok := true;
        } else {
          ok := false;
        }
      } else {
        cursorLabel := Num(0);
        ok := true;
      }
    }

    /** `clearTrace`: the trace becomes empty and nothing else changes. */
    method ClearTrace()
      modifies this
      ensures State() == old(State()).(trace := [])
    {
      trace := [];
    }

    /**
     * Where `updateCursorPosition(x, y)` takes the view `v`: the mouse is
     * recorded and shifted by the padding; over the image the image indices
     * under it are stored and the label there is read, which throws (and
     * keeps the old label) when the lookup does; off the image the label is
     * 0 and the indices keep their values. Nothing else changes.
     */
    function Cursor(v: View, x: real, y: real): (o: Outcome)
      requires Sane(v)
      ensures Sane(o.view) && Inside(o.view) == Inside(v)
      ensures o.view.rawX == x && o.view.rawY == y && o.view.canvasPosX == x - padding && o.view.canvasPosY == y - padding
      ensures InRangeAt(x - padding, y - padding) ==>
        && o.view.imgX == Some(ImageIndex(x - padding, scale, v.zoom, v.sx))
        && o.view.imgY == Some(ImageIndex(y - padding, scale, v.zoom, v.sy))
        && (o.threw <==> Lookup(v.segArray, o.view.imgX, o.view.imgY).Err?)
        && o.view.cursorLabel == (if o.threw then v.cursorLabel else Lookup(v.segArray, o.view.imgX, o.view.imgY).value)
      ensures !InRangeAt(x - padding, y - padding) ==>
        o.view.imgX == v.imgX && o.view.imgY == v.imgY && o.view.cursorLabel == Num(0) && !o.threw
      ensures o.view == v.(rawX := x, rawY := y, canvasPosX := x - padding, canvasPosY := y - padding,
                           imgX := o.view.imgX, imgY := o.view.imgY, cursorLabel := o.view.cursorLabel)
    {
      var px := x - padding;
      var py := y - padding;
      var moved := v.(rawX := x, rawY := y, canvasPosX := px, canvasPosY := py);
      if InRangeAt(px, py) then
        var ix := Some(ImageIndex(px, scale, v.zoom, v.sx));
        var iy := Some(ImageIndex(py, scale, v.zoom, v.sy));
        var r := Lookup(v.segArray, ix, iy);
        if r.Ok? then Outcome(moved.(imgX := ix, imgY := iy, cursorLabel := r.value), false)
        else Outcome(moved.(imgX := ix, imgY := iy), true)
      else
        Outcome(moved.(cursorLabel := Num(0)), false)
    }

    /**
     * With the window inside the image and a label image of the right shape,
     * a cursor over the image lands on a pixel of the image and reads the
     * label there: it neither throws nor gives NaN.
     */
    lemma CursorInImage(v: View, x: real, y: real)
      requires Sane(v) && Inside(v) && InRangeAt(x - padding, y - padding)
      requires v.segArray.Some? && Shaped(v.segArray.value, width, height)
      ensures var o := Cursor(v, x, y);
        && !o.threw
        && 0 <= o.view.imgX.value < width && 0 <= o.view.imgY.value < height
        && o.view.cursorLabel == Num(Abs(v.segArray.value[o.view.imgY.value][o.view.imgX.value]))
    {
      ExtentFits(width, v.zoom);
      ExtentFits(height, v.zoom);
      IndexInside(x - padding, scale, v.zoom, width, v.sx);
      IndexInside(y - padding, scale, v.zoom, height, v.sy);
      LookupShaped(v.segArray.value, width, height,
                   ImageIndex(x - padding, scale, v.zoom, v.sx), ImageIndex(y - padding, scale, v.zoom, v.sy));
    }

    /** `updateCursorPosition(x, y)`: moves the view as `Cursor` says; `ok` is false when it throws. */
    method UpdateCursorPosition(x: real, y: real) returns (ok: bool)
      requires Valid()
      modifies this
      ensures Valid() && WindowInImage() == old(WindowInImage())
      ensures Cursor(old(State()), x, y) == Outcome(State(), !ok)
    {
      rawX := x;
      rawY := y;
      canvasPosX := x - padding;
      canvasPosY := y - padding;
      if InRange() {
        imgX := Some(ImageIndex(canvasPosX, scale, zoom, sx));
        imgY := Some(ImageIndex(canvasPosY, scale, zoom, sy));
        var r := Lookup(segArray, imgX, imgY);
        if r.Ok? {
          cursorLabel := r.value;
          ok := true;
        } else {
          ok := false;
        }
      } else {
        cursorLabel := Num(0);
        ok := true;
      }
    }
  }

  class Pan {
    const canvas: CanvasState
    /** The shift actually applied, clamped so the window stays in the image. */
    const dx: real
    const dy: real
    /** The window when the pan was made. */
    ghost const startX: real
    ghost const startY: real
    ghost const startWidth: real
    ghost const startHeight: real

    constructor (canvas: CanvasState, dx: real, dy: real)
      ensures this.canvas == canvas
      ensures this.dx == ClampShift(-dx, canvas.sx, canvas.width as real - canvas.sWidth)
      ensures this.dy == ClampShift(-dy, canvas.sy, canvas.height as real - canvas.sHeight)
      ensures startX == canvas.sx && startY == canvas.sy
      ensures startWidth == canvas.sWidth && startHeight == canvas.sHeight
      ensures StartInside() <==> canvas.WindowInImage()
      ensures canvas.Valid() ==> LandsInside()
    {
      this.canvas := canvas;
      this.dx := ClampShift(-dx, canvas.sx, canvas.width as real - canvas.sWidth);
      this.dy := ClampShift(-dy, canvas.sy, canvas.height as real - canvas.sHeight);
      startX := canvas.sx;
      startY := canvas.sy;
      startWidth := canvas.sWidth;
      startHeight := canvas.sHeight;
      if canvas.Valid() {
        ExtentFits(canvas.width, canvas.zoom);
        ExtentFits(canvas.height, canvas.zoom);
      }
    }

    /** The window the pan was made on lay inside the image. */
    ghost predicate StartInside() {
      && 0.0 <= startX <= canvas.width as real - startWidth
      && 0.0 <= startY <= canvas.height as real - startHeight
    }

    /** The window the pan moves to lies inside the image. */
    ghost predicate LandsInside() {
      && 0.0 <= startX + dx <= canvas.width as real - startWidth
      && 0.0 <= startY + dy <= canvas.height as real - startHeight
    }

    /** The canvas has the window size the pan was made with. */
    ghost predicate SameSize()
      reads canvas
    {
      canvas.sWidth == startWidth && canvas.sHeight == startHeight
    }

    /** `do`: move the window by the clamped shift. */
    method Do()
      modifies canvas
      ensures canvas.State() == old(canvas.State()).(sx := old(canvas.sx) + dx, sy := old(canvas.sy) + dy)
      ensures canvas.Valid() == old(canvas.Valid())
      ensures old(SameSize() && canvas.sx == startX && canvas.sy == startY) && LandsInside() ==>
        canvas.WindowInImage()
    {
      canvas.sx := canvas.sx + dx;
      canvas.sy := canvas.sy + dy;
    }

    /** `redo` does what `do` does. */
    method Redo()
      modifies canvas
      ensures canvas.State() == old(canvas.State()).(sx := old(canvas.sx) + dx, sy := old(canvas.sy) + dy)
      ensures canvas.Valid() == old(canvas.Valid())
      ensures old(SameSize() && canvas.sx == startX && canvas.sy == startY) && LandsInside() ==>
        canvas.WindowInImage()
    {
      Do();
    }

    /** `undo`: move the window back by the same shift. */
    method Undo()
      modifies canvas
      ensures canvas.State() == old(canvas.State()).(sx := old(canvas.sx) - dx, sy := old(canvas.sy) - dy)
      ensures canvas.Valid() == old(canvas.Valid())
      ensures old(SameSize() && canvas.sx == startX + dx && canvas.sy == startY + dy) && StartInside() ==>
        canvas.WindowInImage() && canvas.sx == startX && canvas.sy == startY
    {
      canvas.sx := canvas.sx + -dx;
      canvas.sy := canvas.sy + -dy;
    }
  }

  /** `Math.max(zoom - 10 * dZoom, zoomLimit)`: the requested zoom, never below the limit. */
  function ZoomTarget(zoom: real, dZoom: real, limit: real): (z: real)
    ensures z >= limit && z >= zoom - 10.0 * dZoom
    ensures z == limit || z == zoom - 10.0 * dZoom
  {
    MaxR(zoom - 10.0 * dZoom, limit)
  }

  /**
   * The shift of the window in one direction when its size changes from
   * `oldSize` to `newSize`: the share `prop` of the change, clamped to the image.
   */
  function ZoomShift(prop: real, oldSize: real, newSize: real, pos: real, size: nat): real {
    ClampShift(prop * (oldSize - newSize), pos, size as real - newSize)
  }

  /** An undoable zoom about the cursor position at the time it was made. */
  class Zoom {
    const canvas: CanvasState
    const posX: real
    const posY: real
    const oldValue: real
    const newValue: real

    constructor (canvas: CanvasState, dZoom: real)
      ensures this.canvas == canvas && posX == canvas.canvasPosX && posY == canvas.canvasPosY
      ensures oldValue == canvas.zoom && newValue == ZoomTarget(canvas.zoom, dZoom, canvas.zoomLimit)
      ensures canvas.Valid() ==> Valid()
    {
      this.canvas := canvas;
      posX := canvas.canvasPosX;
      posY := canvas.canvasPosY;
      oldValue := canvas.zoom;
      newValue := ZoomTarget(canvas.zoom, dZoom, canvas.zoomLimit);
    }

    /** Both zoom levels the command switches between respect the limit, on a canvas of positive size. */
    ghost predicate Valid() {
      && oldValue >= canvas.zoomLimit && newValue >= canvas.zoomLimit
      && canvas.width > 0 && canvas.height > 0 && canvas.scale > 0.0
    }

    /**
     * The view after `changeZoom(z)`: the window takes the size of zoom `z`
     * and moves by the share of its change in size that the cursor
     * position gives, clamped to keep the window inside the image.
     */
    function AfterZoom(z: real, v: View): View
      requires z > 0.0 && canvas.width > 0 && canvas.height > 0 && canvas.scale > 0.0
    {
      PositiveProduct(canvas.scale, canvas.width as real);
      PositiveProduct(canvas.scale, canvas.height as real);
      var w := Extent(canvas.width, z);
      var h := Extent(canvas.height, z);
      var propX := posX / canvas.ScaledWidth();
      var propY := posY / canvas.ScaledHeight();
      v.(zoom := z, sWidth := w, sHeight := h,
         sx := v.sx + ZoomShift(propX, v.sWidth, w, v.sx, canvas.width),
         sy := v.sy + ZoomShift(propY, v.sHeight, h, v.sy, canvas.height))
    }

    /**
     * A zoom to a level at or above the limit keeps the view sane and puts
     * the window inside the image, wherever it was before.
     */
    lemma AfterZoomFits(z: real, v: View)
      requires canvas.Sane(v) && z >= canvas.zoomLimit
      ensures canvas.Sane(AfterZoom(z, v)) && canvas.Inside(AfterZoom(z, v))
    {
      ExtentFits(canvas.width, z);
      ExtentFits(canvas.height, z);
    }

    /** `changeZoom(z)`: zoom to `z`; the window ends inside the image. */
    method ChangeZoom(z: real)
      requires canvas.Valid() && z >= canvas.zoomLimit
      modifies canvas
      ensures canvas.Valid() && canvas.WindowInImage()
      ensures canvas.State() == AfterZoom(z, old(canvas.State()))
    {
      ghost var before := canvas.State();
      AfterZoomFits(z, before);
      var newHeight := Extent(canvas.height, z);
      var newWidth := Extent(canvas.width, z);
      var oldHeight := canvas.sHeight;
      var oldWidth := canvas.sWidth;
      PositiveProduct(canvas.scale, canvas.width as real);
      PositiveProduct(canvas.scale, canvas.height as real);
      var propX := posX / canvas.ScaledWidth();
      var propY := posY / canvas.ScaledHeight();
      var dx := ZoomShift(propX, oldWidth, newWidth, canvas.sx, canvas.width);
      var dy := ZoomShift(propY, oldHeight, newHeight, canvas.sy, canvas.height);
      canvas.zoom := z;
      canvas.sHeight := newHeight;
      canvas.sWidth := newWidth;
      canvas.sx := canvas.sx + dx;
      canvas.sy := canvas.sy + dy;
      assert canvas.State() == AfterZoom(z, before);
    }

    /** `do`: zoom to the new value. */
    method Do()
      requires canvas.Valid() && Valid()
      modifies canvas
      ensures canvas.Valid() && canvas.WindowInImage() && canvas.zoom == newValue
      ensures canvas.State() == AfterZoom(newValue, old(canvas.State()))
    {
      ChangeZoom(newValue);
    }

    /** `redo` does what `do` does. */
    method Redo()
      requires canvas.Valid() && Valid()
      modifies canvas
      ensures canvas.Valid() && canvas.WindowInImage() && canvas.zoom == newValue
      ensures canvas.State() == AfterZoom(newValue, old(canvas.State()))
    {
      Do();
    }

    /** `undo`: zoom back to the value from before the command. */
    method Undo()
      requires canvas.Valid() && Valid()
      modifies canvas
      ensures canvas.Valid() && canvas.WindowInImage() && canvas.zoom == oldValue
      ensures canvas.State() == AfterZoom(oldValue, old(canvas.State()))
    {
      ChangeZoom(oldValue);
    }
  }

  /**
   * Undo taken last-first through a pan can leave the window off the image.
   * On a 100 x 100 image: zoom to 200% with the cursor at the corner, pan the
   * window right by 50, zoom back out to 100%, then undo the zoom-out and the
   * pan. The zoom's undo recomputes the window (it lands at 0) instead of
   * restoring it (it was at 50), so undoing the pan moves it to -50; the
   * cursor over the image then reads a pixel left of every row, and the label
   * becomes NaN.
   */
  method LifoUndoLeavesImage() returns (c: CanvasState, ok: bool)
    ensures c.sx == -50.0 && !c.WindowInImage()
    ensures ok && c.imgX == Some(-49) && c.imgY == Some(1) && c.cursorLabel == NaN
  {
    var pan;
    c, pan := PanBetweenZooms();
    pan.Undo();
    assert c.sx == -50.0 && c.sy == 0.0 && c.zoom == 200.0;
    assert ImageIndex(2.0, 1.0, 200.0, -50.0) == -49;
    assert ImageIndex(2.0, 1.0, 200.0, 0.0) == 1;
    ok := c.UpdateCursorPosition(12.0, 12.0);
  }

  /**
   * The first steps of `LifoUndoLeavesImage`, up to the undo of the zoom-out:
   * the window is back at 200% but at 0, where the pan moved it to 50.
   */
  method PanBetweenZooms() returns (c: CanvasState, pan: Pan)
    ensures fresh(c) && pan.canvas == c && pan.dx == 50.0 && pan.dy == 0.0
    ensures c.width == 100 && c.height == 100 && c.scale == 1.0 && c.padding == 10.0 && c.Valid()
    ensures c.sx == 0.0 && c.sy == 0.0 && c.zoom == 200.0 && c.segArray == Some([[7], [7]])
  {
    c, pan := PannedRight();
    var zoomOut := new Zoom(c, 10.0);
    assert zoomOut.posX == 0.0 && zoomOut.posY == 0.0 && zoomOut.newValue == 100.0;
    zoomOut.Do();
    assert c.sx == 0.0 && c.sy == 0.0 && c.sWidth == 100.0 && c.sHeight == 100.0;
    zoomOut.Undo();
  }

  /** `ZoomedInAtCorner`, then the window panned right by 50. */
  method PannedRight() returns (c: CanvasState, pan: Pan)
    ensures fresh(c) && pan.canvas == c && pan.dx == 50.0 && pan.dy == 0.0
    ensures c.width == 100 && c.height == 100 && c.scale == 1.0 && c.padding == 10.0 && c.Valid()
    ensures c.sx == 50.0 && c.sy == 0.0 && c.zoom == 200.0 && c.sWidth == 50.0 && c.sHeight == 50.0
    ensures c.canvasPosX == 0.0 && c.canvasPosY == 0.0 && c.segArray == Some([[7], [7]])
  {
    c := ZoomedInAtCorner();
    assert c.width as real - c.sWidth == 50.0 && c.height as real - c.sHeight == 50.0;
    pan := new Pan(c, -50.0, 0.0);
    assert pan.dx == 50.0 && pan.dy == 0.0;
    pan.Do();
    assert c.State().sx == 50.0;
  }

  /** A new 100 x 100 canvas with a label image, the cursor at its corner, zoomed to 200%. */
  method ZoomedInAtCorner() returns (c: CanvasState)
    ensures fresh(c) && c.width == 100 && c.height == 100 && c.scale == 1.0 && c.padding == 10.0 && c.Valid()
    ensures c.sx == 0.0 && c.sy == 0.0 && c.zoom == 200.0 && c.sWidth == 50.0 && c.sHeight == 50.0
    ensures c.canvasPosX == 0.0 && c.canvasPosY == 0.0 && c.segArray == Some([[7], [7]])
  {
    c := new CanvasState(100, 100, 1.0, 10.0);
    var ok := c.SetSegArray([[7], [7]]);
    ok := c.UpdateCursorPosition(10.0, 10.0);
    var zoomIn := new Zoom(c, -10.0);
    assert zoomIn.posX == 0.0 && zoomIn.posY == 0.0 && zoomIn.newValue == 200.0;
    zoomIn.Do();
  }
}
