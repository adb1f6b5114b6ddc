/** XineramaGetImageData (Xext/panoramiX.c): one logical image, stitched together from overlapping screens. */
module Stitch {
  import opened Bits
  import opened Blit

  datatype Point = Point(x: int, y: int)

  datatype Box = Box(x1: int, y1: int, x2: int, y2: int)

  predicate In(p: Point, b: Box) {
    b.x1 <= p.x < b.x2 && b.y1 <= p.y < b.y2
  }

  function Points(b: Box): set<Point> {
    set x, y | b.x1 <= x < b.x2 && b.y1 <= y < b.y2 :: Point(x, y)
  }

  datatype Screen = Screen(x: int, y: int, width: nat, height: nat)

  /** A drawable's origin on its screen */
  datatype Drawable = Drawable(x: int, y: int)

  /** PixmapBytePad, for a 32-bit scanline pad */
  function BytePad(bits: nat): nat {
    (bits + 31) / 32 * 4
  }

  /**
   * The screens and what the code below calls: the GetImage of each screen, which returns the bytes of an image, and the
   * region code, which returns a region as a list of boxes. `paint` says what each pixel of each drawable is.
   */
  datatype Display = Display(screens: seq<Screen>, drawables: seq<Drawable>, bpp: nat,
                             paint: (nat, int, int, nat) -> bool,
                             getImage: (nat, int, int, nat, nat) -> seq<bv8>,
                             rects: set<Point> -> seq<Box>)
  {
    ghost predicate Valid() {
      |drawables| == |screens| > 0 && (bpp == 1 || (bpp > 0 && bpp % 8 == 0)) &&
      (forall i, x, y, w, h :: Faithful(i, x, y, w, h)) &&
      (forall region :: Decomposes(rects(region), region))
    }

    /** GetImage returns rows of padded length, which hold the pixels asked for. */
    ghost predicate Faithful(i: nat, x: int, y: int, w: nat, h: nat) {
      var bytes := getImage(i, x, y, w, h);
      |bytes| == BytePad(w * bpp) * h &&
      forall r: nat, c: nat, b: nat | r < h && c < w && b < bpp ::
        PixelBit(bytes, BytePad(w * bpp), bpp, c, r, b) == paint(i, x + c, y + r, b)
    }

    function ScreenBox(i: nat): Box
      requires i < |screens|
    {
      Box(screens[i].x, screens[i].y, screens[i].x + screens[i].width, screens[i].y + screens[i].height)
    }

    /** Bit b of what screen i shows at a point of the logical screen */
    predicate Shown(i: nat, p: Point, b: nat)
      requires i < |screens| && i < |drawables|
    {
      paint(i, p.x - drawables[i].x - screens[i].x, p.y - drawables[i].y - screens[i].y, b)
    }
  }

  /** Bit b of pixel (c, r) of an image */
  predicate PixelBit(s: seq<bv8>, pitch: nat, bpp: nat, c: nat, r: nat, b: nat) {
    At(s, pitch, r, bpp * c + b)
  }

  /** Disjoint, non-empty boxes that cover the region */
  ghost predicate Decomposes(boxes: seq<Box>, region: set<Point>) {
    if boxes == [] then region == {}
    else
      boxes[0].x1 < boxes[0].x2 && boxes[0].y1 < boxes[0].y2 && Points(boxes[0]) <= region &&
      Decomposes(boxes[1..], region - Points(boxes[0]))
  }

  /** The lowest-numbered screen from k on that contains p, or the number of screens */
  function FirstOwner(d: Display, p: Point, k: nat): (r: nat)
    requires k <= |d.screens|
    ensures k <= r <= |d.screens|
    ensures r < |d.screens| ==> In(p, d.ScreenBox(r))
    ensures forall j | k <= j < r :: !In(p, d.ScreenBox(j))
    decreases |d.screens| - k
  {
    if k == |d.screens| || In(p, d.ScreenBox(k)) then k else FirstOwner(d, p, k + 1)
  }

  /** The lowest-numbered screen from k on that contains the whole box, or the number of screens */
  function Container(d: Display, box: Box, k: nat): (r: nat)
    requires k <= |d.screens|
    ensures k <= r <= |d.screens|
    ensures r < |d.screens| ==> Points(box) <= Points(d.ScreenBox(r))
    ensures forall j | k <= j < r :: !(Points(box) <= Points(d.ScreenBox(j)))
    decreases |d.screens| - k
  {
    if k == |d.screens| || Points(box) <= Points(d.ScreenBox(k)) then k else Container(d, box, k + 1)
  }

  /** The screens below the one that contains the whole box leave some of it uncovered. */
  ghost predicate Reached(d: Display, box: Box) {
    var m := Container(d, box, 0);
    m < |d.screens| && exists q :: In(q, box) && FirstOwner(d, q, 0) >= m
  }

  /** The screen that gives the pixel at p: the first that contains all of the box if it is reached, or else the first that contains p. */
  ghost function Source(d: Display, box: Box, p: Point): nat {
    if Reached(d, box) then Container(d, box, 0) else FirstOwner(d, p, 0)
  }

  /** A pixel comes from a screen that contains it, and comes from none only when no screen does. */
  lemma SourceContains(d: Display, box: Box, p: Point)
    requires In(p, box)
    ensures Source(d, box, p) < |d.screens| ==> In(p, d.ScreenBox(Source(d, box, p)))
    ensures Source(d, box, p) < |d.screens| <==> exists i | 0 <= i < |d.screens| :: In(p, d.ScreenBox(i))
  {
    if Reached(d, box) {
      assert p in Points(box);
    }
  }

  /** Where the image of `box` keeps bit b of the pixel at p */
  predicate Px(d: Display, s: seq<bv8>, pitch: nat, box: Box, p: Point, b: nat)
    requires In(p, box)
  {
    PixelBit(s, pitch, d.bpp, p.x - box.x1, p.y - box.y1, b)
  }

  /** The image t' of `box` is t with the points of `done` taken from their first owners: no other bit differs. */
  ghost predicate Partial(d: Display, t: seq<bv8>, t': seq<bv8>, pitch: nat, box: Box, done: set<Point>)
    requires |d.drawables| == |d.screens|
  {
    |t'| == |t| &&
    (forall p, b: nat | In(p, box) && b < d.bpp ::
      Px(d, t', pitch, box, p, b)
      == if p in done && FirstOwner(d, p, 0) < |d.screens| then d.Shown(FirstOwner(d, p, 0), p, b)
         else Px(d, t, pitch, box, p, b)) &&
    (forall r: nat, c: nat | c < 8 * pitch && (r >= box.y2 - box.y1 || c >= d.bpp * (box.x2 - box.x1)) ::
      At(t', pitch, r, c) == At(t, pitch, r, c))
  }

  lemma PixelRange(bpp: nat, x: nat, rx: nat, w: nat, b: nat)
    requires b < bpp
    ensures bpp * rx <= bpp * x + b < bpp * rx + bpp * w <==> rx <= x < rx + w
    ensures rx <= x ==> bpp * x + b - bpp * rx == bpp * (x - rx) + b
  {
    Distribute(bpp, rx, w);
    if x < rx {
      RowsApart(bpp, x, rx);
    } else {
      Distribute(bpp, rx, x - rx);
      if x < rx + w {
        RowsApart(bpp, x, rx + w);
      } else if rx + w < x {
        RowsApart(bpp, rx + w, x);
      }
    }
  }

  lemma Distribute(a: nat, b: nat, c: nat)
    ensures a * (b + c) == a * b + a * c
  {
  }

  /** Rows of w pixels fit in their padded length. */
  lemma PadHolds(bits: nat)
    ensures 8 * BytePad(bits) >= bits
  {
  }

  /** The padded length is the least multiple of four bytes that holds the bits. */
  lemma PadIsLeast(bits: nat, n: nat)
    ensures BytePad(bits) % 4 == 0 && 8 * BytePad(bits) >= bits
    ensures 8 * (4 * n) >= bits ==> BytePad(bits) <= 4 * n
  {
  }

  /** One more box, read from screen i, that is the first owner of its points */
  lemma PasteStep(d: Display, i: nat, t: seq<bv8>, t1: seq<bv8>, t2: seq<bv8>, pitch: nat, box: Box, done: set<Point>,
                  rect: Box, from: seq<bv8>)
    requires i < |d.screens| == |d.drawables|
    requires Partial(d, t, t1, pitch, box, done)
    requires box.x1 <= rect.x1 < rect.x2 <= box.x2 && box.y1 <= rect.y1 < rect.y2 <= box.y2
    requires d.bpp * (box.x2 - box.x1) <= 8 * pitch
    requires forall p | In(p, rect) :: FirstOwner(d, p, 0) == i
    requires Grabbed(d, i, rect, from)
    requires Pasted(t1, t2, pitch, d.bpp * (rect.x1 - box.x1), rect.y1 - box.y1, d.bpp * (rect.x2 - rect.x1),
                    rect.y2 - rect.y1, from, BytePad((rect.x2 - rect.x1) * d.bpp))
    ensures Partial(d, t, t2, pitch, box, done + Points(rect))
  {
    hide At, Display.Shown, FirstOwner;
    var done' := done + Points(rect);
    forall p, b: nat | In(p, box) && b < d.bpp
      ensures Px(d, t2, pitch, box, p, b)
           == if p in done' && FirstOwner(d, p, 0) < |d.screens| then d.Shown(FirstOwner(d, p, 0), p, b)
              else Px(d, t, pitch, box, p, b)
    {
      PastePixel(d, i, t1, t2, pitch, box, rect, from, p, b);
    }
    forall r: nat, c: nat | c < 8 * pitch && (r >= box.y2 - box.y1 || c >= d.bpp * (box.x2 - box.x1))
      ensures At(t2, pitch, r, c) == At(t, pitch, r, c)
    {
      PasteOutside(d.bpp, box, rect, r, c);
    }
  }

  lemma PasteOutside(bpp: nat, box: Box, rect: Box, r: nat, c: nat)
    requires box.x1 <= rect.x1 < rect.x2 <= box.x2 && box.y1 <= rect.y1 < rect.y2 <= box.y2
    requires r >= box.y2 - box.y1 || c >= bpp * (box.x2 - box.x1)
    ensures r >= (rect.y1 - box.y1) + (rect.y2 - rect.y1) || c >= bpp * (rect.x1 - box.x1) + bpp * (rect.x2 - rect.x1)
  {
    Distribute(bpp, rect.x1 - box.x1, rect.x2 - rect.x1);
    Distribute(bpp, rect.x2 - box.x1, box.x2 - rect.x2);
  }

  /** `from` holds the pixels of `rect` as screen i shows them. */
  ghost predicate Grabbed(d: Display, i: nat, rect: Box, from: seq<bv8>)
    requires i < |d.screens| == |d.drawables| && rect.x1 <= rect.x2
  {
    forall p, b: nat | In(p, rect) && b < d.bpp ::
      PixelBit(from, BytePad((rect.x2 - rect.x1) * d.bpp), d.bpp, p.x - rect.x1, p.y - rect.y1, b) == d.Shown(i, p, b)
  }

  lemma PastePixel(d: Display, i: nat, t1: seq<bv8>, t2: seq<bv8>, pitch: nat, box: Box, rect: Box, from: seq<bv8>,
                   p: Point, b: nat)
    requires i < |d.screens| == |d.drawables| && In(p, box) && b < d.bpp
    requires box.x1 <= rect.x1 < rect.x2 <= box.x2 && box.y1 <= rect.y1 < rect.y2 <= box.y2
    requires d.bpp * (box.x2 - box.x1) <= 8 * pitch
    requires Grabbed(d, i, rect, from)
    requires Pasted(t1, t2, pitch, d.bpp * (rect.x1 - box.x1), rect.y1 - box.y1, d.bpp * (rect.x2 - rect.x1),
                    rect.y2 - rect.y1, from, BytePad((rect.x2 - rect.x1) * d.bpp))
    ensures Px(d, t2, pitch, box, p, b) == if In(p, rect) then d.Shown(i, p, b) else Px(d, t1, pitch, box, p, b)
  {
    hide At, Display.Shown, BytePad;
    var x, rx := p.x - box.x1, rect.x1 - box.x1;
    PixelRange(d.bpp, x, 0, box.x2 - box.x1, b);
    PixelRange(d.bpp, x, rx, rect.x2 - rect.x1, b);
    var r, c: nat := p.y - box.y1, d.bpp * x + b;
    assert At(t2, pitch, r, c)
        == if rect.y1 - box.y1 <= r < rect.y2 - box.y1 && d.bpp * rx <= c < d.bpp * rx + d.bpp * (rect.x2 - rect.x1)
           then At(from, BytePad((rect.x2 - rect.x1) * d.bpp), r - (rect.y1 - box.y1), c - d.bpp * rx)
           else At(t1, pitch, r, c);
    if In(p, rect) {
      assert PixelBit(from, BytePad((rect.x2 - rect.x1) * d.bpp), d.bpp, p.x - rect.x1, p.y - rect.y1, b)
          == d.Shown(i, p, b);
    }
  }

  /** `bytes` is what the first bytes of the array hold. */
  method GetImage(mem: array<bv8>, bytes: seq<bv8>)
    requires |bytes| <= mem.Length
    modifies mem
    ensures mem[..|bytes|] == bytes
  {
    for k := 0 to |bytes|
      invariant mem[..k] == bytes[..k]
    {
      mem[k] := bytes[k];
    }
  }

  /** A box that GetImage has read into the start of the array */
  lemma ReadIsGrabbed(d: Display, i: nat, rect: Box, from: seq<bv8>)
    requires d.Valid() && i < |d.screens| && rect.x1 <= rect.x2 && rect.y1 <= rect.y2
    requires var bytes := d.getImage(i, rect.x1 - d.drawables[i].x - d.screens[i].x,
                                     rect.y1 - d.drawables[i].y - d.screens[i].y, rect.x2 - rect.x1, rect.y2 - rect.y1);
             |bytes| <= |from| && from[..|bytes|] == bytes
    ensures Grabbed(d, i, rect, from)
  {
    hide At, BytePad, Decomposes;
    var x, y, w, h: nat := rect.x1 - d.drawables[i].x - d.screens[i].x, rect.y1 - d.drawables[i].y - d.screens[i].y,
        rect.x2 - rect.x1, rect.y2 - rect.y1;
    assert d.Faithful(i, x, y, w, h);
    var bytes := d.getImage(i, x, y, w, h);
    var pitch := BytePad(w * d.bpp);
    forall p, b: nat | In(p, rect) && b < d.bpp
      ensures PixelBit(from, pitch, d.bpp, p.x - rect.x1, p.y - rect.y1, b) == d.Shown(i, p, b)
    {
      var c, r: nat := p.x - rect.x1, p.y - rect.y1;
      assert PixelBit(bytes, pitch, d.bpp, c, r, b) == d.paint(i, x + c, y + r, b);
      PadHolds(w * d.bpp);
      PixelRange(d.bpp, c, 0, w, b);
      PrefixAt(bytes, from, pitch, h, r, d.bpp * c + b);
    }
  }

  lemma PrefixAt(bytes: seq<bv8>, from: seq<bv8>, pitch: nat, h: nat, r: nat, c: nat)
    requires |bytes| == pitch * h <= |from| && from[..|bytes|] == bytes && r < h && c < 8 * pitch
    ensures At(from, pitch, r, c) == At(bytes, pitch, r, c)
  {
    RowsApart(pitch, r, h);
    assert bytes[pitch * r + c / 8] == from[pitch * r + c / 8];
  }

  /** The size in bytes of the image of a box */
  function ImageSize(d: Display, rect: Box): nat
    requires rect.x1 <= rect.x2 && rect.y1 <= rect.y2
  {
    BytePad((rect.x2 - rect.x1) * d.bpp) * (rect.y2 - rect.y1)
  }

  /** The image of the box fits in `size` bytes; bits, that are or-ed in, start out clear. */
  ghost predicate Ready(d: Display, box: Box, pitch: nat, size: nat, t: seq<bv8>) {
    box.x1 < box.x2 && box.y1 < box.y2 &&
    d.bpp * (box.x2 - box.x1) <= 8 * pitch && pitch * (box.y2 - box.y1) <= size &&
    (d.bpp == 1 ==> ClearRect(t, pitch, 0, 0, box.x2 - box.x1, box.y2 - box.y1))
  }

  /** "copy the memory over": one box of the region that screen i gives, read into the scratch memory and put in its place. */
  method GrabBox(d: Display, i: nat, box: Box, rect: Box, data: array<bv8>, pitch: nat, scratch: array<bv8>,
                 ghost t: seq<bv8>, ghost done: set<Point>, ghost written: multiset<Point>)
    returns (ghost written': multiset<Point>)
    requires d.Valid() && i < |d.screens| && data != scratch
    requires Ready(d, box, pitch, data.Length, t)
    requires box.x1 <= rect.x1 < rect.x2 <= box.x2 && box.y1 <= rect.y1 < rect.y2 <= box.y2
    requires ImageSize(d, rect) <= scratch.Length
    requires forall p | In(p, rect) :: FirstOwner(d, p, 0) == i && p !in done
    requires Partial(d, t, data[..], pitch, box, done)
    modifies data, scratch
    ensures Partial(d, t, data[..], pitch, box, done + Points(rect))
    ensures written' == written + multiset(Points(rect))
  {
    hide *;
    written' := written + multiset(Points(rect));
    var w, h: nat := rect.x2 - rect.x1, rect.y2 - rect.y1;
    var scratchPitch := BytePad(w * d.bpp);
    ghost var t1 := data[..];
    BoxFits(d, box, rect, pitch, data.Length, t);
    ReadImage(d, i, rect, scratch);
    ghost var from := scratch[..];
    if d.bpp == 1 {
      RectClear(d, t, t1, pitch, box, done, rect);
    }
    PasteBox(d.bpp, data, pitch, rect.x1 - box.x1, rect.y1 - box.y1, w, h, scratch, scratchPitch);
    PasteStep(d, i, t, t1, data[..], pitch, box, done, rect, from);
  }

  lemma WholeBytes(bpp: nat, x: nat)
    requires bpp % 8 == 0
    ensures 8 * (x * (bpp / 8)) == bpp * x
  {
    var j := bpp / 8;
    assert bpp == 8 * j;
    assert (8 * j) * x == 8 * (j * x);
  }

  /** The two branches at "copy the memory over": depth 1, and whole bytes */
  method PasteBox(bpp: nat, data: array<bv8>, pitch: nat, x: nat, y: nat, w: nat, h: nat, scratch: array<bv8>,
                  scratchPitch: nat)
    requires bpp == 1 || bpp % 8 == 0
    requires data != scratch && bpp * x + bpp * w <= 8 * pitch && bpp * w <= 8 * scratchPitch
    requires pitch * (y + h) <= data.Length && scratchPitch * h <= scratch.Length
    requires bpp == 1 ==> ClearRect(data[..], pitch, x, y, w, h)
    modifies data, scratch
    ensures Pasted(old(data[..]), data[..], pitch, bpp * x, y, bpp * w, h, old(scratch[..]), scratchPitch)
  {
    hide *;
    if bpp == 1 {
      BlitRect(data, pitch, x, y, w, h, scratch, scratchPitch);
    } else {
      WholeBytes(bpp, x);
      WholeBytes(bpp, w);
      var j := bpp / 8;
      CopyRect(data, pitch, x * j, y, w * j, h, scratch, scratchPitch);
    }
  }

  method ReadImage(d: Display, i: nat, rect: Box, mem: array<bv8>)
    requires d.Valid() && i < |d.screens| && rect.x1 <= rect.x2 && rect.y1 <= rect.y2
    requires BytePad((rect.x2 - rect.x1) * d.bpp) * (rect.y2 - rect.y1) <= mem.Length
    modifies mem
    ensures Grabbed(d, i, rect, mem[..])
  {
    hide BytePad, Decomposes, At;
    var x, y, w, h: nat := rect.x1 - d.drawables[i].x - d.screens[i].x, rect.y1 - d.drawables[i].y - d.screens[i].y,
        rect.x2 - rect.x1, rect.y2 - rect.y1;
    assert d.Faithful(i, x, y, w, h);
    GetImage(mem, d.getImage(i, x, y, w, h));
    ghost var from := mem[..];
    assert from[..|d.getImage(i, x, y, w, h)|] == d.getImage(i, x, y, w, h);
    ReadIsGrabbed(d, i, rect, from);
  }

  lemma BoxFits(d: Display, box: Box, rect: Box, pitch: nat, size: nat, t: seq<bv8>)
    requires d.Valid()
    requires box.x1 <= rect.x1 < rect.x2 <= box.x2 && box.y1 <= rect.y1 < rect.y2 <= box.y2
    requires Ready(d, box, pitch, size, t)
    ensures d.bpp * (box.x2 - box.x1) <= 8 * pitch
    ensures d.bpp == 1 ==> ClearRect(t, pitch, 0, 0, box.x2 - box.x1, box.y2 - box.y1)
    ensures ImageSize(d, rect) == BytePad((rect.x2 - rect.x1) * d.bpp) * (rect.y2 - rect.y1)
    ensures |d.drawables| == |d.screens|
    ensures d.bpp == 1 || d.bpp % 8 == 0
    ensures var x, w := rect.x1 - box.x1, rect.x2 - rect.x1;
            d.bpp * x + d.bpp * w <= 8 * pitch && d.bpp * w <= 8 * BytePad(w * d.bpp)
    ensures pitch * (rect.y1 - box.y1 + (rect.y2 - rect.y1)) <= size
  {
    hide Decomposes, Display.Faithful;
    var x, w, h: nat := rect.x1 - box.x1, rect.x2 - rect.x1, rect.y2 - box.y1;
    Distribute(d.bpp, x, w);
    Distribute(d.bpp, x + w, box.x2 - rect.x2);
    Distribute(pitch, h, box.y2 - rect.y2);
    PadHolds(w * d.bpp);
  }

  /** The points not done are still clear. */
  lemma RectClear(d: Display, t: seq<bv8>, t1: seq<bv8>, pitch: nat, box: Box, done: set<Point>, rect: Box)
    requires |d.drawables| == |d.screens| && d.bpp == 1
    requires box.x1 <= rect.x1 < rect.x2 <= box.x2 && box.y1 <= rect.y1 < rect.y2 <= box.y2
    requires forall p | In(p, rect) :: p !in done
    requires ClearRect(t, pitch, 0, 0, box.x2 - box.x1, box.y2 - box.y1)
    requires Partial(d, t, t1, pitch, box, done)
    ensures ClearRect(t1, pitch, rect.x1 - box.x1, rect.y1 - box.y1, rect.x2 - rect.x1, rect.y2 - rect.y1)
  {
    hide At, FirstOwner, Display.Shown;
    var x, y, w, h := rect.x1 - box.x1, rect.y1 - box.y1, rect.x2 - rect.x1, rect.y2 - rect.y1;
    forall r: nat, c: nat | y <= r < y + h && x <= c < x + w
      ensures !At(t1, pitch, r, c)
    {
      var p := Point(box.x1 + c, box.y1 + r);
      assert In(p, rect) && In(p, box);
      assert !At(t, pitch, r, c);
      assert Px(d, t, pitch, box, p, 0) == At(t, pitch, r, c) && Px(d, t1, pitch, box, p, 0) == At(t1, pitch, r, c);
    }
  }

  /** Grows the scratch memory if it is too small. */
  method Reserve(mem: array<bv8>, sizeNeeded: nat, data: array<bv8>) returns (scratch: array<bv8>)
    requires mem != data
    ensures sizeNeeded <= scratch.Length && scratch != data && (scratch == mem || fresh(scratch))
  {
    scratch := mem;
    if sizeNeeded > scratch.Length {
      scratch := new bv8[sizeNeeded];
    }
  }

  lemma RectInBox(rect: Box, box: Box)
    requires rect.x1 < rect.x2 && rect.y1 < rect.y2 && Points(rect) <= Points(box)
    ensures box.x1 <= rect.x1 < rect.x2 <= box.x2 && box.y1 <= rect.y1 < rect.y2 <= box.y2
  {
    assert Point(rect.x1, rect.y1) in Points(rect);
    assert Point(rect.x2 - 1, rect.y2 - 1) in Points(rect);
  }

  /** One round of the inner loop: the next box, into scratch memory that grows as needed */
  method GrabNext(d: Display, i: nat, box: Box, ghost grab: set<Point>, boxes: seq<Box>, k: nat, data: array<bv8>,
                  pitch: nat, mem: array<bv8>, ghost t: seq<bv8>, ghost done: set<Point>, ghost written: multiset<Point>,
                  ghost rest: set<Point>)
    returns (scratch: array<bv8>, ghost written': multiset<Point>)
    requires d.Valid() && i < |d.screens| && data != mem
    requires Ready(d, box, pitch, data.Length, t) && grab <= Points(box) && grab !! done && rest <= grab
    requires forall p | p in grab :: FirstOwner(d, p, 0) == i
    requires k < |boxes| && Decomposes(boxes[k..], rest)
    requires Partial(d, t, data[..], pitch, box, done + (grab - rest)) && written == multiset(grab - rest)
    modifies data, mem
    ensures scratch != data && (scratch == mem || fresh(scratch))
    ensures var rest' := rest - Points(boxes[k]);
      && Decomposes(boxes[k + 1..], rest') && Partial(d, t, data[..], pitch, box, done + (grab - rest'))
      && written' == multiset(grab - rest')
  {
    hide *;
    NextBox(d, i, box, grab, done, boxes, k, rest);
    scratch := Reserve(mem, ImageSize(d, boxes[k]), data);
    written' := GrabBox(d, i, box, boxes[k], data, pitch, scratch, t, done + (grab - rest), written);
  }

  /** The inner loop: every box of the region taken from screen i */
  method GrabRegion(d: Display, i: nat, box: Box, grab: set<Point>, data: array<bv8>, pitch: nat, mem: array<bv8>,
                    ghost t: seq<bv8>, ghost done: set<Point>, ghost written: multiset<Point>)
    returns (scratch: array<bv8>, ghost written': multiset<Point>)
    requires d.Valid() && i < |d.screens| && data != mem
    requires Ready(d, box, pitch, data.Length, t) && grab <= Points(box) && grab !! done
    requires forall p | p in grab :: FirstOwner(d, p, 0) == i
    requires Partial(d, t, data[..], pitch, box, done)
    modifies data, mem
    ensures scratch != data && (scratch == mem || fresh(scratch))
    ensures Partial(d, t, data[..], pitch, box, done + grab)
    ensures written' == written + multiset(grab)
  {
    hide *;
    scratch := mem;
    ghost var here := multiset{};
    var boxes := d.rects(grab);
    ghost var rest := grab;
    assert boxes[0..] == boxes;
    BoxesCover(d, grab);
    assert done + (grab - rest) == done && multiset(grab - rest) == multiset{};
    for k := 0 to |boxes|
      invariant scratch != data && (scratch == mem || fresh(scratch))
      invariant rest <= grab && Decomposes(boxes[k..], rest)
      invariant Partial(d, t, data[..], pitch, box, done + (grab - rest))
      invariant here == multiset(grab - rest)
    {
      scratch, here := GrabNext(d, i, box, grab, boxes, k, data, pitch, scratch, t, done, here, rest);
      rest := rest - Points(boxes[k]);
    }
    NoBoxes(boxes[|boxes|..], rest);
    assert grab - rest == grab;
    written' := written + here;
  }

  lemma NoBoxes(boxes: seq<Box>, region: set<Point>)
    requires boxes == [] && Decomposes(boxes, region)
    ensures region == {}
  {
  }

  lemma NextBox(d: Display, i: nat, box: Box, grab: set<Point>, done: set<Point>, boxes: seq<Box>, k: nat,
                rest: set<Point>)
    requires grab <= Points(box) && grab !! done && rest <= grab
    requires forall p | p in grab :: FirstOwner(d, p, 0) == i
    requires k < |boxes| && Decomposes(boxes[k..], rest)
    ensures var rect := boxes[k];
            box.x1 <= rect.x1 < rect.x2 <= box.x2 && box.y1 <= rect.y1 < rect.y2 <= box.y2 &&
            (forall p | In(p, rect) :: FirstOwner(d, p, 0) == i && p !in done + (grab - rest)) &&
            Decomposes(boxes[k + 1..], rest - Points(rect)) &&
            done + (grab - rest) + Points(rect) == done + (grab - (rest - Points(rect))) &&
            multiset(grab - (rest - Points(rect))) == multiset(grab - rest) + multiset(Points(rect))
  {
    hide FirstOwner;
    var rect := boxes[k];
    assert boxes[k..][0] == rect && boxes[k..][1..] == boxes[k + 1..];
    RectInBox(rect, box);
    forall p | In(p, rect)
      ensures FirstOwner(d, p, 0) == i && p !in done + (grab - rest)
    {
      assert p in Points(rect);
    }
    DisjointUnion(grab - rest, Points(rect));
    assert (grab - rest) + Points(rect) == grab - (rest - Points(rect));
  }

  lemma BoxesCover(d: Display, grab: set<Point>)
    requires d.Valid()
    ensures |d.drawables| == |d.screens| && Decomposes(d.rects(grab), grab)
  {
  }

  lemma DisjointUnion<T>(a: set<T>, b: set<T>)
    requires a !! b
    ensures multiset(a + b) == multiset(a) + multiset(b)
  {
  }

  /** The box asked for, in logical screen space */
  function SourceBox(d: Display, left: int, top: int, width: nat, height: nat, isRoot: bool): Box
    requires |d.drawables| == |d.screens| > 0
  {
    var x := left + if isRoot then 0 else d.drawables[0].x + d.screens[0].x;
    var y := top + if isRoot then 0 else d.drawables[0].y + d.screens[0].y;
    Box(x, y, x + width, y + height)
  }

  /** What the image of `box` shows: each pixel as the screen that gives it shows it, or as it was when no screen does. */
  ghost predicate Stitched(d: Display, t: seq<bv8>, t': seq<bv8>, pitch: nat, box: Box)
    requires |d.drawables| == |d.screens|
  {
    forall p, b: nat | In(p, box) && b < d.bpp ::
      Px(d, t', pitch, box, p, b)
      == if Source(d, box, p) < |d.screens| then d.Shown(Source(d, box, p), p, b) else Px(d, t, pitch, box, p, b)
  }

  /** The points of the box that some screen contains */
  function Covered(d: Display, box: Box): (s: set<Point>)
    ensures forall p :: p in s <==> In(p, box) && exists i | 0 <= i < |d.screens| :: In(p, d.ScreenBox(i))
  {
    set p | p in Points(box) && FirstOwner(d, p, 0) < |d.screens|
  }

  /** src is what is left of the box after the first i screens. */
  ghost predicate Remaining(d: Display, box: Box, src: set<Point>, i: nat) {
    forall p :: p in src <==> In(p, box) && FirstOwner(d, p, 0) >= i
  }

  datatype Overlap = RgnOut | RgnPart | RgnIn

  function ContainsRect(screen: Box, box: Box): Overlap {
    if Points(box) <= Points(screen) then RgnIn
    else if Points(box) !! Points(screen) then RgnOut
    else RgnPart
  }

  lemma ValidLengths(d: Display)
    requires d.Valid()
    ensures |d.drawables| == |d.screens| > 0
  {
  }

  lemma BoxReady(d: Display, left: int, top: int, width: nat, height: nat, isRoot: bool, pitch: nat, size: nat,
                 t: seq<bv8>)
    requires |d.drawables| == |d.screens| > 0 && width > 0 && height > 0
    requires pitch == BytePad(width * d.bpp) && pitch * height <= size
    requires d.bpp == 1 ==> ClearRect(t, pitch, 0, 0, width, height)
    ensures var box := SourceBox(d, left, top, width, height, isRoot);
            Ready(d, box, pitch, size, t) && box.x2 - box.x1 == width && box.y2 - box.y1 == height
  {
    PadHolds(width * d.bpp);
  }

  lemma StartsWhole(d: Display, t: seq<bv8>, pitch: nat, box: Box)
    requires |d.drawables| == |d.screens| && box.x1 < box.x2 && box.y1 < box.y2
    ensures Points(box) != {} && Remaining(d, box, Points(box), 0) && Partial(d, t, t, pitch, box, {})
  {
    hide At;
    assert Point(box.x1, box.y1) in Points(box);
  }

  lemma NextScreen(d: Display, i: nat, box: Box, src: set<Point>)
    requires i < |d.screens| && Remaining(d, box, src, i) && i <= Container(d, box, 0)
    requires ContainsRect(d.ScreenBox(i), box) != RgnIn
    ensures i + 1 <= Container(d, box, 0)
    ensures ContainsRect(d.ScreenBox(i), box) == RgnOut ==> Remaining(d, box, src, i + 1)
  {
    if ContainsRect(d.ScreenBox(i), box) == RgnOut {
      forall p | In(p, box)
        ensures FirstOwner(d, p, 0) != i
      {
        assert p in Points(box) && p !in Points(d.ScreenBox(i));
      }
    }
  }

  lemma GrabIsOwned(d: Display, i: nat, box: Box, src: set<Point>, grab: set<Point>)
    requires i < |d.screens| && Remaining(d, box, src, i) && grab == src * Points(d.ScreenBox(i))
    ensures forall p | p in grab :: FirstOwner(d, p, 0) == i
    ensures grab <= src <= Points(box) && grab !! Points(box) - src && Remaining(d, box, src - grab, i + 1)
  {
    forall p | p in src
      ensures p in grab <==> FirstOwner(d, p, 0) == i
    {
    }
  }

  lemma TakeRegion(box: Box, src: set<Point>, grab: set<Point>)
    requires grab <= src <= Points(box)
    ensures Points(box) - src + grab == Points(box) - (src - grab)
    ensures multiset(Points(box) - (src - grab)) == multiset(Points(box) - src) + multiset(grab)
  {
    DisjointUnion(Points(box) - src, grab);
    assert Points(box) - src + grab == Points(box) - (src - grab);
  }

  lemma NoRegion(d: Display, src: set<Point>, grab: set<Point>)
    requires d.Valid() && d.rects(grab) == []
    ensures src - grab == src
  {
    BoxesCover(d, grab);
  }

  /** Screen i contains all of the box, part of which no earlier screen contains. */
  lemma WholeBox(d: Display, i: nat, t: seq<bv8>, t': seq<bv8>, pitch: nat, box: Box, src: set<Point>)
    requires |d.drawables| == |d.screens| > i && box.x1 <= box.x2 && pitch == BytePad((box.x2 - box.x1) * d.bpp)
    requires i <= Container(d, box, 0) && ContainsRect(d.ScreenBox(i), box) == RgnIn
    requires src != {} && Remaining(d, box, src, i) && Grabbed(d, i, box, t')
    ensures Container(d, box, 0) == i && Stitched(d, t, t', pitch, box)
  {
    hide PixelBit, BytePad, Display.Shown;
    var q :| q in src;
    assert FirstOwner(d, q, 0) >= i;
    assert Reached(d, box);
    forall p, b: nat | In(p, box) && b < d.bpp
      ensures Px(d, t', pitch, box, p, b) == d.Shown(i, p, b)
    {
    }
  }

  /** Nothing is left of the box, or no screen is left. */
  lemma AllTaken(d: Display, i: nat, t: seq<bv8>, t': seq<bv8>, pitch: nat, box: Box, src: set<Point>)
    requires |d.drawables| == |d.screens|
    requires i <= Container(d, box, 0) && Remaining(d, box, src, i) && (src == {} || i == |d.screens|)
    requires Partial(d, t, t', pitch, box, Points(box) - src)
    ensures Stitched(d, t, t', pitch, box) && Points(box) - src == Covered(d, box)
  {
    hide PixelBit, BytePad, Display.Shown;
    forall p | In(p, box)
      ensures p in Points(box) - src <==> FirstOwner(d, p, 0) < |d.screens|
      ensures Source(d, box, p) == FirstOwner(d, p, 0)
    {
    }
  }

  predicate OnScreen(d: Display, p: Point) {
    FirstOwner(d, p, 0) < |d.screens|
  }

  /** The pixel at p is what screen i, which contains p, shows there. */
  ghost predicate ShownBy(d: Display, s: seq<bv8>, pitch: nat, box: Box, p: Point, i: nat)
    requires |d.drawables| == |d.screens| && In(p, box)
  {
    i < |d.screens| && In(p, d.ScreenBox(i)) && forall b: nat | b < d.bpp :: Px(d, s, pitch, box, p, b) == d.Shown(i, p, b)
  }

  /** Every pixel is what some screen that contains it shows; bits that no screen shows are zero. */
  ghost predicate Shows(d: Display, s: seq<bv8>, pitch: nat, box: Box)
    requires |d.drawables| == |d.screens|
  {
    forall p | In(p, box) ::
      if OnScreen(d, p) then exists i :: ShownBy(d, s, pitch, box, p, i)
      else d.bpp == 1 ==> !Px(d, s, pitch, box, p, 0)
  }

  lemma StitchedShows(d: Display, t: seq<bv8>, t': seq<bv8>, pitch: nat, box: Box)
    requires |d.drawables| == |d.screens| && Stitched(d, t, t', pitch, box)
    requires box.x1 <= box.x2 && box.y1 <= box.y2
    requires d.bpp == 1 ==> ClearRect(t, pitch, 0, 0, box.x2 - box.x1, box.y2 - box.y1)
    ensures Shows(d, t', pitch, box)
  {
    hide At, Display.Shown, Container, Reached;
    forall p | In(p, box)
      ensures if OnScreen(d, p) then exists i :: ShownBy(d, t', pitch, box, p, i)
              else d.bpp == 1 ==> !Px(d, t', pitch, box, p, 0)
    {
      SourceContains(d, box, p);
      if OnScreen(d, p) {
        assert ShownBy(d, t', pitch, box, p, Source(d, box, p));
      } else if d.bpp == 1 {
        assert Px(d, t', pitch, box, p, 0) == Px(d, t, pitch, box, p, 0);
        assert !At(t, pitch, p.y - box.y1, p.x - box.x1);
      }
    }
  }

  /** The logical point is on the screen. */
  predicate Covers(screen: Screen, x: int, y: int) {
    screen.x <= x < screen.x + screen.width && screen.y <= y < screen.y + screen.height
  }

  /** Pixel (c, r) of the image is pixel (x, y) of screen i's drawable. */
  ghost predicate HoldsPixel(d: Display, s: seq<bv8>, pitch: nat, c: nat, r: nat, i: nat, x: int, y: int) {
    forall b: nat | b < d.bpp :: PixelBit(s, pitch, d.bpp, c, r, b) == d.paint(i, x, y, b)
  }

  /** The drawables of the screens are at one logical position. */
  predicate Aligned(d: Display)
    requires |d.drawables| == |d.screens|
  {
    forall i, j | 0 <= i < |d.screens| && 0 <= j < |d.screens| ::
      && d.drawables[i].x + d.screens[i].x == d.drawables[j].x + d.screens[j].x
      && d.drawables[i].y + d.screens[i].y == d.drawables[j].y + d.screens[j].y
  }

  /** Pixel (c, r) of the root is that of the logical screen, c to the right of the left edge asked for and r below the top. */
  ghost predicate AnswersRoot(d: Display, s: seq<bv8>, pitch: nat, left: int, top: int, c: nat, r: nat)
    requires |d.drawables| == |d.screens|
  {
    (exists j :: 0 <= j < |d.screens| && Covers(d.screens[j], left + c, top + r)) ==>
      exists i :: 0 <= i < |d.screens| && Covers(d.screens[i], left + c, top + r)
        && HoldsPixel(d, s, pitch, c, r, i, left + c - d.drawables[i].x - d.screens[i].x,
                      top + r - d.drawables[i].y - d.screens[i].y)
  }

  /** Pixel (c, r) of a window is that of the window, c to the right of the left edge asked for and r down from the top. */
  ghost predicate AnswersWindow(d: Display, s: seq<bv8>, pitch: nat, left: int, top: int, c: nat, r: nat)
    requires |d.drawables| == |d.screens| > 0
  {
    var x, y := d.drawables[0].x + d.screens[0].x + left + c, d.drawables[0].y + d.screens[0].y + top + r;
    (exists j :: 0 <= j < |d.screens| && Covers(d.screens[j], x, y)) ==>
      exists i :: 0 <= i < |d.screens| && Covers(d.screens[i], x, y) && HoldsPixel(d, s, pitch, c, r, i, left + c, top + r)
  }

  /** The image holds what the client asked for, wherever that is on a screen. */
  ghost predicate Answers(d: Display, s: seq<bv8>, pitch: nat, left: int, top: int, width: nat, height: nat, isRoot: bool)
    requires |d.drawables| == |d.screens| > 0
  {
    forall c: nat, r: nat | c < width && r < height ::
      && (isRoot ==> AnswersRoot(d, s, pitch, left, top, c, r))
      && (!isRoot && Aligned(d) ==> AnswersWindow(d, s, pitch, left, top, c, r))
  }

  lemma ShownIsCopied(d: Display, s: seq<bv8>, pitch: nat, box: Box, c: nat, r: nat) returns (i: nat)
    requires |d.drawables| == |d.screens| && Shows(d, s, pitch, box) && c < box.x2 - box.x1 && r < box.y2 - box.y1
    requires exists j :: 0 <= j < |d.screens| && Covers(d.screens[j], box.x1 + c, box.y1 + r)
    ensures i < |d.screens| && Covers(d.screens[i], box.x1 + c, box.y1 + r)
    ensures HoldsPixel(d, s, pitch, c, r, i, box.x1 + c - d.drawables[i].x - d.screens[i].x,
                   box.y1 + r - d.drawables[i].y - d.screens[i].y)
  {
    hide At;
    var p := Point(box.x1 + c, box.y1 + r);
    var j :| 0 <= j < |d.screens| && Covers(d.screens[j], box.x1 + c, box.y1 + r);
    assert In(p, box) && In(p, d.ScreenBox(j));
    i :| ShownBy(d, s, pitch, box, p, i);
    forall b: nat | b < d.bpp
      ensures PixelBit(s, pitch, d.bpp, c, r, b)
           == d.paint(i, p.x - d.drawables[i].x - d.screens[i].x, p.y - d.drawables[i].y - d.screens[i].y, b)
    {
      assert Px(d, s, pitch, box, p, b) == d.Shown(i, p, b);
    }
  }

  lemma ShowsAnswers(d: Display, s: seq<bv8>, pitch: nat, left: int, top: int, width: nat, height: nat, isRoot: bool)
    requires |d.drawables| == |d.screens| > 0
    requires Shows(d, s, pitch, SourceBox(d, left, top, width, height, isRoot))
    ensures Answers(d, s, pitch, left, top, width, height, isRoot)
  {
    hide Shows, HoldsPixel;
    var box := SourceBox(d, left, top, width, height, isRoot);
    forall c: nat, r: nat | c < width && r < height
      ensures isRoot ==> AnswersRoot(d, s, pitch, left, top, c, r)
      ensures !isRoot && Aligned(d) ==> AnswersWindow(d, s, pitch, left, top, c, r)
    {
      if exists j :: 0 <= j < |d.screens| && Covers(d.screens[j], box.x1 + c, box.y1 + r) {
        var i := ShownIsCopied(d, s, pitch, box, c, r);
      }
    }
  }

  lemma StitchedAnswers(d: Display, t: seq<bv8>, t': seq<bv8>, pitch: nat, left: int, top: int, width: nat, height: nat,
                        isRoot: bool)
    requires |d.drawables| == |d.screens| > 0 && (d.bpp == 1 ==> ClearRect(t, pitch, 0, 0, width, height))
    requires Stitched(d, t, t', pitch, SourceBox(d, left, top, width, height, isRoot))
    ensures Answers(d, t', pitch, left, top, width, height, isRoot)
  {
    StitchedShows(d, t, t', pitch, SourceBox(d, left, top, width, height, isRoot));
    ShowsAnswers(d, t', pitch, left, top, width, height, isRoot);
  }

  method GetImageData(d: Display, left: int, top: int, width: nat, height: nat, data: array<bv8>, pitch: nat,
                      isRoot: bool)
    returns (ghost written: multiset<Point>)
    requires d.Valid() && width > 0 && height > 0 && pitch == BytePad(width * d.bpp) && pitch * height <= data.Length
    requires d.bpp == 1 ==> ClearRect(data[..], pitch, 0, 0, width, height)
    modifies data
    ensures |d.drawables| == |d.screens| > 0
    ensures Answers(d, data[..], pitch, left, top, width, height, isRoot)
    ensures var box := SourceBox(d, left, top, width, height, isRoot);
            Stitched(d, old(data[..]), data[..], pitch, box) &&
            (Container(d, box, 0) == |d.screens| ==>
               // no bit outside the box changes, and every covered pixel is written exactly once
               Partial(d, old(data[..]), data[..], pitch, box, Covered(d, box)) &&
               written == multiset(Covered(d, box)))
  {
    hide *;
    ValidLengths(d);
    var box := SourceBox(d, left, top, width, height, isRoot);
    BoxReady(d, left, top, width, height, isRoot, pitch, data.Length, data[..]);
    var src := Points(box);
    StartsWhole(d, data[..], pitch, box);
    written := multiset{};
    var scratch := new bv8[0];
    ghost var t := data[..];
    assert Points(box) - src == {};
    for i := 0 to |d.screens|
      invariant scratch != data && fresh(scratch) && src != {} && Remaining(d, box, src, i)
      invariant i <= Container(d, box, 0)
      invariant Partial(d, t, data[..], pitch, box, Points(box) - src)
      invariant written == multiset(Points(box) - src)
    {
      var screen := d.ScreenBox(i);
      var inOut := ContainsRect(screen, box);
      if inOut == RgnIn {
        ReadImage(d, i, box, data);
        WholeBox(d, i, t, data[..], pitch, box, src);
        StitchedAnswers(d, t, data[..], pitch, left, top, width, height, isRoot);
        written := written + multiset(Points(box));
        return;
      }
      NextScreen(d, i, box, src);
      if inOut == RgnPart {
        var grab := src * Points(screen);
        GrabIsOwned(d, i, box, src, grab);
        if d.rects(grab) != [] {
          scratch, written := GrabRegion(d, i, box, grab, data, pitch, scratch, t, Points(box) - src, written);
          TakeRegion(box, src, grab);
          src := src - grab;
          if src == {} {
            AllTaken(d, i + 1, t, data[..], pitch, box, src);
            StitchedAnswers(d, t, data[..], pitch, left, top, width, height, isRoot);
            return;
          }
        } else {
          NoRegion(d, src, grab);
        }
      }
    }
    AllTaken(d, |d.screens|, t, data[..], pitch, box, src);
    StitchedAnswers(d, t, data[..], pitch, left, top, width, height, isRoot);
  }
}
