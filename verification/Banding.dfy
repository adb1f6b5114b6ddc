/** PanoramiXGetImage (Xext/panoramiXprocs.c): the image is read and sent in bands, plane by plane for XYPixmap. */
module Banding {
  import opened Bits
  import opened Blit
  import opened Powers
  import opened Stitch

  const XINERAMA_IMAGE_BUFSIZE := 262144

  // One image sent in bands.

  /** Screens that overlap show the same pixels where they do. */
  ghost predicate Agree(d: Display, box: Box)
    requires |d.drawables| == |d.screens|
  {
    forall p, i, j, b: nat | In(p, box) && 0 <= i < |d.screens| && 0 <= j < |d.screens| && b < d.bpp &&
      In(p, d.ScreenBox(i)) && In(p, d.ScreenBox(j)) :: d.Shown(i, p, b) == d.Shown(j, p, b)
  }

  /** However it was put together, an image shows what any one reading of the whole box shows, where the screens agree. */
  lemma SameImage(d: Display, s: seq<bv8>, s': seq<bv8>, pitch: nat, box: Box, p: Point, b: nat)
    requires |d.drawables| == |d.screens| && Shows(d, s, pitch, box) && Shows(d, s', pitch, box) && Agree(d, box)
    requires In(p, box) && b < d.bpp && (OnScreen(d, p) || d.bpp == 1)
    ensures Px(d, s, pitch, box, p, b) == Px(d, s', pitch, box, p, b)
  {
    hide At, Display.Shown, FirstOwner;
    if OnScreen(d, p) {
      var i :| ShownBy(d, s, pitch, box, p, i);
      var j :| ShownBy(d, s', pitch, box, p, j);
    }
  }

  /** The first n rows of a box, and the n rows after its first a */
  function Rows(box: Box, a: nat, n: nat): Box {
    Box(box.x1, box.y1 + a, box.x2, box.y1 + a + n)
  }

  lemma AtConcat(s: seq<bv8>, s': seq<bv8>, pitch: nat, a: nat, r: nat, c: nat)
    requires |s| == pitch * a && c < 8 * pitch
    ensures At(s + s', pitch, r, c) == if r < a then At(s, pitch, r, c) else At(s', pitch, r - a, c)
  {
    hide Bit;
    var p := 8 * (pitch * r) + c;
    if r < a {
      RowsApart(pitch, r, a);
      assert (s + s')[p / 8] == s[p / 8];
    } else {
      Distribute(pitch, a, r - a);
      var q := 8 * (pitch * (r - a)) + c;
      assert p / 8 == |s| + q / 8;
      if q < 8 * |s'| {
        assert (s + s')[p / 8] == s'[q / 8];
      }
    }
  }

  /** A band appended to the rows already sent */
  lemma ShowsMore(d: Display, s: seq<bv8>, s': seq<bv8>, pitch: nat, box: Box, a: nat, n: nat)
    requires |d.drawables| == |d.screens| && box.x1 <= box.x2 && d.bpp * (box.x2 - box.x1) <= 8 * pitch
    requires |s| == pitch * a && d.bpp > 0
    requires Shows(d, s, pitch, Rows(box, 0, a)) && Shows(d, s', pitch, Rows(box, a, n))
    ensures Shows(d, s + s', pitch, Rows(box, 0, a + n))
  {
    hide At, Display.Shown, FirstOwner;
    var whole := Rows(box, 0, a + n);
    forall p | In(p, whole)
      ensures if OnScreen(d, p) then exists i :: ShownBy(d, s + s', pitch, whole, p, i)
              else d.bpp == 1 ==> !Px(d, s + s', pitch, whole, p, 0)
    {
      var band, part := if p.y < box.y1 + a then Rows(box, 0, a) else Rows(box, a, n),
          if p.y < box.y1 + a then s else s';
      assert In(p, band);
      forall b: nat | b < d.bpp
        ensures Px(d, s + s', pitch, whole, p, b) == Px(d, part, pitch, band, p, b)
      {
        PixelRange(d.bpp, p.x - box.x1, 0, box.x2 - box.x1, b);
        AtConcat(s, s', pitch, a, p.y - box.y1, d.bpp * (p.x - box.x1) + b);
      }
      if OnScreen(d, p) {
        var i :| ShownBy(d, part, pitch, band, p, i);
        assert ShownBy(d, s + s', pitch, whole, p, i);
      }
    }
  }

  lemma ShowsPrefix(d: Display, s: seq<bv8>, s': seq<bv8>, pitch: nat, box: Box)
    requires |d.drawables| == |d.screens| && box.x1 <= box.x2 && box.y1 <= box.y2 && d.bpp > 0
    requires d.bpp * (box.x2 - box.x1) <= 8 * pitch
    requires |s'| == pitch * (box.y2 - box.y1) <= |s| && s' == s[..|s'|]
    requires Shows(d, s, pitch, box)
    ensures Shows(d, s', pitch, box)
  {
    hide At, Display.Shown, FirstOwner;
    forall p | In(p, box)
      ensures if OnScreen(d, p) then exists i :: ShownBy(d, s', pitch, box, p, i)
              else d.bpp == 1 ==> !Px(d, s', pitch, box, p, 0)
    {
      forall b: nat | b < d.bpp
        ensures Px(d, s', pitch, box, p, b) == Px(d, s, pitch, box, p, b)
      {
        PixelRange(d.bpp, p.x - box.x1, 0, box.x2 - box.x1, b);
        PrefixAt(s', s, pitch, box.y2 - box.y1, p.y - box.y1, d.bpp * (p.x - box.x1) + b);
      }
      if OnScreen(d, p) {
        var i :| ShownBy(d, s, pitch, box, p, i);
        assert ShownBy(d, s', pitch, box, p, i);
      }
    }
  }

  method ClearBytes(buf: array<bv8>, n: nat)
    requires n <= buf.Length
    modifies buf
    ensures forall k :: 0 <= k < n ==> buf[k] == 0
  {
    for k := 0 to n
      invariant forall j :: 0 <= j < k ==> buf[j] == 0
    {
      buf[k] := 0;
    }
  }

  lemma ZerosAreClear(s: seq<bv8>, pitch: nat, w: nat, h: nat)
    requires w <= 8 * pitch && pitch * h <= |s| && forall k :: 0 <= k < pitch * h ==> s[k] == 0
    ensures ClearRect(s, pitch, 0, 0, w, h)
  {
    forall r: nat, c: nat | r < h && c < w
      ensures !At(s, pitch, r, c)
    {
      RowsApart(pitch, r, h);
      assert s[pitch * r + c / 8] == 0;
    }
  }

  /** One band: `nlines` rows of the image */
  method ReadBand(d: Display, x: int, y: int, w: nat, nlines: nat, pitch: nat, isRoot: bool, pBuf: array<bv8>)
    returns (band: seq<bv8>)
    requires d.Valid() && w > 0 && nlines > 0 && pitch == BytePad(w * d.bpp) && pitch * nlines <= pBuf.Length
    modifies pBuf
    ensures |d.drawables| == |d.screens| > 0
    ensures |band| == pitch * nlines && Shows(d, band, pitch, SourceBox(d, x, y, w, nlines, isRoot))
  {
    hide *;
    ValidLengths(d);
    PadHolds(w * d.bpp);
    if d.bpp == 1 {
      ClearBytes(pBuf, pitch * nlines);
      ZerosAreClear(pBuf[..], pitch, w, nlines);
    }
    ghost var t := pBuf[..];
    ghost var box := SourceBox(d, x, y, w, nlines, isRoot);
    BoxReady(d, x, y, w, nlines, isRoot, pitch, pBuf.Length, t);
    var _ := GetImageData(d, x, y, w, nlines, pBuf, pitch, isRoot);
    band := pBuf[..pitch * nlines];
    StitchedShows(d, t, pBuf[..], pitch, box);
    ReadyFits(d, box, pitch, pBuf.Length, t);
    ShowsPrefix(d, pBuf[..], band, pitch, box);
  }

  lemma ReadyFits(d: Display, box: Box, pitch: nat, size: nat, t: seq<bv8>)
    requires d.Valid() && Ready(d, box, pitch, size, t)
    ensures d.bpp > 0 && d.bpp * (box.x2 - box.x1) <= 8 * pitch
  {
  }

  lemma BandBox(d: Display, x: int, y: int, w: nat, h: nat, isRoot: bool, linesDone: nat, nlines: nat)
    requires |d.drawables| == |d.screens| > 0
    ensures SourceBox(d, x, y + linesDone, w, nlines, isRoot)
         == Rows(SourceBox(d, x, y, w, h, isRoot), linesDone, nlines)
    ensures SourceBox(d, x, y, w, h, isRoot) == Rows(SourceBox(d, x, y, w, h, isRoot), 0, h)
  {
  }

  lemma NothingSent(d: Display, pitch: nat, box: Box)
    requires |d.drawables| == |d.screens|
    ensures Shows(d, [], pitch, Rows(box, 0, 0))
  {
  }

  /** The band loop: rows 0 to h - 1, each once and in order */
  method SendImage(d: Display, x: int, y: int, w: nat, h: nat, pitch: nat, isRoot: bool, pBuf: array<bv8>,
                   linesPerBuf: nat)
    returns (sent: seq<bv8>)
    requires d.Valid() && w > 0 && h > 0 && pitch == BytePad(w * d.bpp)
    requires linesPerBuf > 0 && pitch * linesPerBuf <= pBuf.Length
    modifies pBuf
    ensures |d.drawables| == |d.screens| > 0
    ensures |sent| == pitch * h && Shows(d, sent, pitch, SourceBox(d, x, y, w, h, isRoot))
  {
    hide *;
    ValidLengths(d);
    ghost var box := SourceBox(d, x, y, w, h, isRoot);
    sent := [];
    var linesDone := 0;
    BandBox(d, x, y, w, h, isRoot, 0, 0);
    NothingSent(d, pitch, box);
    while h - linesDone > 0
      invariant 0 <= linesDone <= h && |sent| == pitch * linesDone
      invariant Shows(d, sent, pitch, Rows(box, 0, linesDone))
    {
      var nlines := if linesPerBuf < h - linesDone then linesPerBuf else h - linesDone;
      Distribute(pitch, nlines, linesPerBuf - nlines);
      var band := ReadBand(d, x, y + linesDone, w, nlines, pitch, isRoot, pBuf);
      BandBox(d, x, y, w, h, isRoot, linesDone, nlines);
      RowWidth(d, x, y, w, h, isRoot, pitch);
      ShowsMore(d, sent, band, pitch, box, linesDone, nlines);
      Distribute(pitch, linesDone, nlines);
      sent := sent + band;
      linesDone := linesDone + nlines;
    }
  }

  lemma RowWidth(d: Display, x: int, y: int, w: nat, h: nat, isRoot: bool, pitch: nat)
    requires d.Valid() && pitch == BytePad(w * d.bpp)
    ensures |d.drawables| == |d.screens| > 0
    ensures var box := SourceBox(d, x, y, w, h, isRoot);
            box.x1 <= box.x2 && d.bpp > 0 && d.bpp * (box.x2 - box.x1) <= 8 * pitch
  {
    PadHolds(w * d.bpp);
  }

  // The planes of an XYPixmap image, and the length announced for them.

  datatype Format = XYPixmap | ZPixmap

  /** The number of one bits */
  function Ones(m: nat): nat {
    if m == 0 then 0 else m % 2 + Ones(m / 2)
  }

  predicate HasPlane(planemask: nat, k: nat)
  {
    planemask / Pow2(k) % 2 == 1
  }

  /** The planes below k that are asked for, highest first */
  function PlaneOrder(k: nat, planemask: nat): seq<nat> {
    if k == 0 then []
    else
      (if HasPlane(planemask, k - 1) then [k - 1] else []) + PlaneOrder(k - 1, planemask)
  }

  /** Each plane asked for comes once, after the higher ones. */
  lemma {:induction false} PlaneOrderDescends(k: nat, planemask: nat)
    ensures var s := PlaneOrder(k, planemask);
            (forall i, j | 0 <= i < j < |s| :: s[i] > s[j]) &&
            (forall n: nat :: n in s <==> n < k && HasPlane(planemask, n))
  {
    if k > 0 {
      PlaneOrderDescends(k - 1, planemask);
      var s, rest := PlaneOrder(k, planemask), PlaneOrder(k - 1, planemask);
      forall n: nat
        ensures n in s <==> n < k && HasPlane(planemask, n)
      {
        assert n in rest <==> n < k - 1 && HasPlane(planemask, n);
      }
      forall i, j | 0 <= i < j < |s|
        ensures s[i] > s[j]
      {
        assert s[j] in rest;
      }
    }
  }

  /** Division with remainder has one answer. */
  lemma QuotientAndRest(m: nat, n: nat, q: nat, r: nat)
    requires r < n && m == n * q + r
    ensures m / n == q && m % n == r
  {
    var q', r' := m / n, m % n;
    assert m == n * q' + r';
    if q < q' {
      RowsApart(n, q, q');
    } else if q' < q {
      RowsApart(n, q', q);
    }
  }

  lemma TopBit(p: nat, m: nat)
    requires p > 0
    ensures m % (2 * p) == (m / p % 2) * p + m % p
  {
    var q, r := m / p, m % p;
    var u, v := q / 2, q % 2;
    Halve(p, m, q, r, u, v);
    QuotientAndRest(m, 2 * p, u, v * p + r);
  }

  lemma Halve(p: nat, m: nat, q: nat, r: nat, u: nat, v: nat)
    requires m == p * q + r && r < p && q == 2 * u + v && v < 2
    ensures m == (2 * p) * u + (v * p + r) && v * p + r < 2 * p
  {
    Distribute(p, 2 * u, v);
  }

  lemma {:induction false} OnesTop(k: nat, q: nat, r: nat)
    requires q < 2 && r < Pow2(k)
    ensures Ones(q * Pow2(k) + r) == q + Ones(r)
  {
    if k == 0 {
      assert Ones(1) == 1;
    } else {
      var m := q * Pow2(k) + r;
      assert m / 2 == q * Pow2(k - 1) + r / 2 && m % 2 == r % 2;
      OnesTop(k - 1, q, r / 2);
      assert Ones(r) == r % 2 + Ones(r / 2);
      assert Ones(m) == m % 2 + Ones(m / 2);
    }
  }

  /** The plane loop visits as many planes as the reply was announced for. */
  lemma {:induction false} PlaneCount(k: nat, planemask: nat)
    ensures |PlaneOrder(k, planemask)| == Ones(planemask % Pow2(k))
  {
    if k > 0 {
      PlaneCount(k - 1, planemask);
      TopBit(Pow2(k - 1), planemask);
      OnesTop(k - 1, planemask / Pow2(k - 1) % 2, planemask % Pow2(k - 1));
    }
  }

  function Flat(images: seq<seq<bv8>>): seq<bv8> {
    if images == [] then [] else Flat(images[..|images| - 1]) + images[|images| - 1]
  }

  /** The drawable's pixels as the screens give them for a format and a plane mask */
  type View = (Format, nat) -> Display

  ghost predicate ValidView(view: View) {
    forall format, mask :: view(format, mask).Valid() && (format == XYPixmap ==> view(format, mask).bpp == 1)
  }

  /** The images of an XYPixmap reply: one for each plane asked for, highest plane first */
  ghost predicate PlaneImages(view: View, images: seq<seq<bv8>>, order: seq<nat>, x: int, y: int, w: nat, h: nat,
                              isRoot: bool)
    requires ValidView(view)
  {
    |images| == |order| &&
    forall i | 0 <= i < |order| ::
      var d := view(XYPixmap, Pow2(order[i]));
      |images[i]| == BytePad(w) * h && Shows(d, images[i], BytePad(w), SourceBox(d, x, y, w, h, isRoot))
  }

  /** Image i holds, in one bit for each pixel, plane order[i] of what was asked for. */
  ghost predicate PlanesAnswer(view: View, images: seq<seq<bv8>>, order: seq<nat>, x: int, y: int, w: nat, h: nat,
                               isRoot: bool)
    requires ValidView(view)
  {
    |images| == |order| &&
    forall i | 0 <= i < |order| :: Answers(view(XYPixmap, Pow2(order[i])), images[i], BytePad(w), x, y, w, h, isRoot)
  }

  lemma PlanesShowAnswers(view: View, images: seq<seq<bv8>>, order: seq<nat>, x: int, y: int, w: nat, h: nat,
                          isRoot: bool)
    requires ValidView(view) && PlaneImages(view, images, order, x, y, w, h, isRoot)
    ensures PlanesAnswer(view, images, order, x, y, w, h, isRoot)
  {
    hide Shows, Answers, SourceBox, BytePad, Display.Faithful, Decomposes;
    forall i | 0 <= i < |order|
      ensures Answers(view(XYPixmap, Pow2(order[i])), images[i], BytePad(w), x, y, w, h, isRoot)
    {
      ShowsAnswers(view(XYPixmap, Pow2(order[i])), images[i], BytePad(w), x, y, w, h, isRoot);
    }
  }

  lemma PlaneImagesMore(view: View, images: seq<seq<bv8>>, order: seq<nat>, image: seq<bv8>, k: nat, x: int, y: int,
                        w: nat, h: nat, isRoot: bool)
    requires ValidView(view) && PlaneImages(view, images, order, x, y, w, h, isRoot)
    requires var d := view(XYPixmap, Pow2(k));
             |image| == BytePad(w) * h && Shows(d, image, BytePad(w), SourceBox(d, x, y, w, h, isRoot))
    ensures PlaneImages(view, images + [image], order + [k], x, y, w, h, isRoot)
    ensures Flat(images + [image]) == Flat(images) + image
  {
    hide Shows, Display.Valid, SourceBox, BytePad;
    assert (images + [image])[..|images|] == images;
  }

  /** The number of lines that fit in the buffer: at least one if there is anything to send, and as many as there are or fit */
  function LinesPerBuf(widthBytesLine: nat, h: nat): (n: nat)
    ensures n > 0 <==> widthBytesLine > 0 && h > 0
    ensures n <= h && (n > 1 ==> widthBytesLine * n <= XINERAMA_IMAGE_BUFSIZE)
    // one more line would not fit
    ensures 0 < n < h ==> widthBytesLine * (n + 1) > XINERAMA_IMAGE_BUFSIZE
  {
    if widthBytesLine == 0 || h == 0 then 0
    else if widthBytesLine >= XINERAMA_IMAGE_BUFSIZE then 1
    else
      LinesFit(widthBytesLine);
      var n := XINERAMA_IMAGE_BUFSIZE / widthBytesLine;
      if n > h then (Distribute(widthBytesLine, h, n - h); h) else n
  }

  lemma LinesFit(width: nat)
    requires 0 < width < XINERAMA_IMAGE_BUFSIZE
    ensures var n := XINERAMA_IMAGE_BUFSIZE / width;
            0 < n && width * n <= XINERAMA_IMAGE_BUFSIZE < width * (n + 1)
  {
    var n := XINERAMA_IMAGE_BUFSIZE / width;
    assert XINERAMA_IMAGE_BUFSIZE == width * n + XINERAMA_IMAGE_BUFSIZE % width;
    Distribute(width, n, 1);
  }

  /** The plane loop: `for (; plane; plane >>= 1) if (planemask & plane)` */
  method SendPlanes(view: View, x: int, y: int, w: nat, h: nat, depth: nat, planemask: nat, isRoot: bool,
                    pBuf: array<bv8>, linesPerBuf: nat)
    returns (sent: seq<bv8>, ghost images: seq<seq<bv8>>)
    requires ValidView(view) && w > 0 && h > 0 && depth > 0
    requires linesPerBuf > 0 && BytePad(w) * linesPerBuf <= pBuf.Length
    modifies pBuf
    ensures sent == Flat(images) && PlaneImages(view, images, PlaneOrder(depth, planemask), x, y, w, h, isRoot)
  {
    hide *;
    sent, images := [], [];
    var plane := Pow2(depth - 1);
    ghost var k: nat := depth;
    ghost var visited: seq<nat> := [];
    NoPlanes(view, x, y, w, h, isRoot);
    assert visited + PlaneOrder(depth, planemask) == PlaneOrder(depth, planemask);
    while plane != 0
      invariant plane == if k == 0 then 0 else Pow2(k - 1)
      invariant sent == Flat(images) && PlaneImages(view, images, visited, x, y, w, h, isRoot)
      invariant visited + PlaneOrder(k, planemask) == PlaneOrder(depth, planemask)
      decreases k
    {
      PlaneStep(k, planemask, visited);
      if planemask / plane % 2 == 1 {
        OnePlane(view, plane, w);
        var image := SendImage(view(XYPixmap, plane), x, y, w, h, BytePad(w), isRoot, pBuf, linesPerBuf);
        PlaneImagesMore(view, images, visited, image, k - 1, x, y, w, h, isRoot);
        sent, images, visited := sent + image, images + [image], visited + [k - 1];
      }
      plane, k := plane / 2, k - 1;
    }
    LastPlane(k, planemask, visited);
  }

  lemma NoPlanes(view: View, x: int, y: int, w: nat, h: nat, isRoot: bool)
    requires ValidView(view)
    ensures PlaneImages(view, [], [], x, y, w, h, isRoot) && Flat([]) == []
  {
  }

  lemma OnePlane(view: View, plane: nat, w: nat)
    requires ValidView(view)
    ensures var d := view(XYPixmap, plane); d.Valid() && d.bpp == 1 && BytePad(w * d.bpp) == BytePad(w)
  {
  }

  lemma PlaneStep(k: nat, planemask: nat, visited: seq<nat>)
    requires k > 0
    ensures var plane := Pow2(k - 1);
            plane > 0 && plane / 2 == (if k == 1 then 0 else Pow2(k - 2)) &&
            visited + PlaneOrder(k, planemask)
            == (if planemask / plane % 2 == 1 then visited + [k - 1] else visited) + PlaneOrder(k - 1, planemask)
  {
    assert PlaneOrder(k, planemask)
        == (if HasPlane(planemask, k - 1) then [k - 1] else []) + PlaneOrder(k - 1, planemask);
  }

  lemma LastPlane(k: nat, planemask: nat, visited: seq<nat>)
    ensures k == 0 ==> visited + PlaneOrder(k, planemask) == visited
    ensures k > 0 ==> Pow2(k - 1) > 0
  {
  }

  lemma {:induction false} FlatLength(images: seq<seq<bv8>>, n: nat)
    requires forall i | 0 <= i < |images| :: |images[i]| == n
    ensures |Flat(images)| == n * |images|
  {
    if images != [] {
      var k := |images| - 1;
      FlatLength(images[..k], n);
      NextRow(n, k);
    }
  }

  /** The length announced, in units of four bytes, as a CARD32 */
  function Announced(bytes: nat): nat {
    (bytes + 3) / 4 % 0x1_0000_0000
  }

  /** For any size a request can ask for, the announced length is not cut off. */
  lemma AnnouncedFits(w: nat, h: nat, bpp: nat, planes: nat)
    requires w < 65536 && h < 65536 && ((planes <= 1 && bpp <= 32) || (bpp == 1 && planes <= 32))
    ensures 4 * Announced(BytePad(w * bpp) * h * planes) == BytePad(w * bpp) * h * planes
  {
    hide *;
    var units := Units(w, bpp);
    UnitsFit(units, h, planes);
    Quads(units, h, planes);
    AnnouncedUnits(units * h * planes);
  }

  lemma Units(w: nat, bpp: nat) returns (units: nat)
    requires w < 65536 && bpp <= 32
    ensures w * bpp >= 0 && BytePad(w * bpp) == 4 * units
    ensures units <= 65535 && (bpp == 1 ==> units <= 2048)
  {
    if bpp != 1 {
      Product(w, 65535, bpp, 32);
    }
    var bits: nat := w * bpp;
    units := (bits + 31) / 32;
  }

  lemma AnnouncedUnits(n: nat)
    requires n < 0x1_0000_0000
    ensures Announced(4 * n) == n
  {
  }

  lemma UnitsFit(units: nat, h: nat, planes: nat)
    requires h < 65536 && ((units <= 65535 && planes <= 1) || (units <= 2048 && planes <= 32))
    ensures units * h * planes < 0x1_0000_0000
  {
    if units <= 2048 && planes <= 32 {
      Product3(units, 2048, h, 65535, planes, 32);
    } else {
      Product3(units, 65535, h, 65535, planes, 1);
    }
  }

  lemma Product3(a: nat, a': nat, b: nat, b': nat, c: nat, c': nat)
    requires a <= a' && b <= b' && c <= c'
    ensures a * b * c <= a' * b' * c'
  {
    Product(a, a', b, b');
    var ab, ab' := a * b, a' * b';
    Product(ab, ab', c, c');
  }

  lemma Quads(units: nat, h: nat, planes: nat)
    ensures (4 * units) * h * planes == 4 * (units * h * planes)
  {
    Fourfold(units, h);
    Fourfold(units * h, planes);
  }

  lemma Fourfold(a: nat, b: nat)
    ensures (4 * a) * b == 4 * (a * b)
  {
  }

  lemma Product(a: nat, a': nat, b: nat, b': nat)
    requires a <= a' && b <= b'
    ensures a * b <= a' * b'
  {
    Distribute(a, b, b' - b);
    assert a' * b' == a * b' + (a' - a) * b';
  }

  method GetImage(view: View, format: Format, depth: nat, planemask: nat, x: int, y: int, w: nat, h: nat, isRoot: bool)
    returns (length: nat, sent: seq<bv8>, ghost images: seq<seq<bv8>>)
    requires ValidView(view) && 0 < depth <= 32 && w < 65536 && h < 65536 && view(ZPixmap, planemask).bpp <= 32
    // exactly what the reply announces
    ensures |sent| == 4 * length
    ensures w == 0 || h == 0 ==> sent == []
    ensures w > 0 && h > 0 && format == ZPixmap ==>
              var d := view(ZPixmap, planemask);
              d.Valid() && |sent| == BytePad(w * d.bpp) * h &&
              Shows(d, sent, BytePad(w * d.bpp), SourceBox(d, x, y, w, h, isRoot)) &&
              Answers(d, sent, BytePad(w * d.bpp), x, y, w, h, isRoot)
    ensures w > 0 && h > 0 && format == XYPixmap ==>
              sent == Flat(images) && PlaneImages(view, images, PlaneOrder(depth, planemask), x, y, w, h, isRoot) &&
              PlanesAnswer(view, images, PlaneOrder(depth, planemask), x, y, w, h, isRoot)
  {
    hide *;
    var d := view(ZPixmap, planemask);
    ViewIsValid(view, planemask);
    var plane := Pow2(depth - 1);
    var bpp := if format == ZPixmap then d.bpp else 1;
    var planes := if format == ZPixmap then 1 else Ones(planemask % (2 * plane));
    var widthBytesLine := BytePad(w * bpp);
    length := Announced(widthBytesLine * h * planes);
    PlanesVisited(depth, planemask);
    AnnouncedFits(w, h, bpp, planes);
    var linesPerBuf := LinesPerBuf(widthBytesLine, h);
    PadPositive(w, bpp);
    Product(0, widthBytesLine, 0, linesPerBuf);
    var pBuf := new bv8[widthBytesLine * linesPerBuf];
    sent, images := [], [];
    if linesPerBuf == 0 {
      ZeroProduct(widthBytesLine, h, planes);
    } else if format == ZPixmap {
      sent := SendImage(d, x, y, w, h, widthBytesLine, isRoot, pBuf, linesPerBuf);
      ShowsAnswers(d, sent, widthBytesLine, x, y, w, h, isRoot);
    } else {
      sent, images := SendPlanes(view, x, y, w, h, depth, planemask, isRoot, pBuf, linesPerBuf);
      PlaneLengths(view, images, PlaneOrder(depth, planemask), x, y, w, h, isRoot);
      PlanesShowAnswers(view, images, PlaneOrder(depth, planemask), x, y, w, h, isRoot);
    }
  }

  lemma ViewIsValid(view: View, planemask: nat)
    requires ValidView(view)
    ensures var d := view(ZPixmap, planemask); d.Valid() && d.bpp > 0 && |d.drawables| == |d.screens| > 0
  {
  }

  lemma PlanesVisited(depth: nat, planemask: nat)
    requires 0 < depth <= 32
    ensures |PlaneOrder(depth, planemask)| == Ones(planemask % (2 * Pow2(depth - 1))) <= 32
  {
    PlaneCount(depth, planemask);
    PlanesBelow(depth, planemask);
  }

  lemma {:induction false} PlanesBelow(k: nat, planemask: nat)
    ensures |PlaneOrder(k, planemask)| <= k
  {
    if k > 0 {
      PlanesBelow(k - 1, planemask);
    }
  }

  lemma PadPositive(w: nat, bpp: nat)
    requires bpp > 0
    ensures w * bpp >= 0 && (BytePad(w * bpp) > 0 <==> w > 0)
    ensures bpp == 1 ==> BytePad(w * bpp) == BytePad(w)
  {
    if w > 0 {
      Product(1, w, 1, bpp);
    }
  }

  lemma ZeroProduct(a: nat, b: nat, c: nat)
    requires a == 0 || b == 0
    ensures a * b * c == 0
  {
  }

  lemma PlaneLengths(view: View, images: seq<seq<bv8>>, order: seq<nat>, x: int, y: int, w: nat, h: nat, isRoot: bool)
    requires ValidView(view) && PlaneImages(view, images, order, x, y, w, h, isRoot)
    ensures |Flat(images)| == BytePad(w) * h * |order|
  {
    hide Shows, Display.Valid, SourceBox, BytePad;
    FlatLength(images, BytePad(w) * h);
  }

  /** The bands together are the image read in one go, wherever overlapping screens agree. */
  lemma BandsAreTheWhole(d: Display, sent: seq<bv8>, t: seq<bv8>, t': seq<bv8>, pitch: nat, box: Box)
    requires |d.drawables| == |d.screens| && box.x1 <= box.x2 && box.y1 <= box.y2
    requires Shows(d, sent, pitch, box)
    requires d.bpp == 1 ==> ClearRect(t, pitch, 0, 0, box.x2 - box.x1, box.y2 - box.y1)
    requires Stitched(d, t, t', pitch, box)
    requires Agree(d, box)
    ensures forall p, b: nat | In(p, box) && b < d.bpp && (OnScreen(d, p) || d.bpp == 1) ::
              Px(d, sent, pitch, box, p, b) == Px(d, t', pitch, box, p, b)
  {
    hide *;
    StitchedShows(d, t, t', pitch, box);
    forall p, b: nat | In(p, box) && b < d.bpp && (OnScreen(d, p) || d.bpp == 1)
      ensures Px(d, sent, pitch, box, p, b) == Px(d, t', pitch, box, p, b)
    {
      SameImage(d, sent, t', pitch, box, p, b);
    }
  }
}
