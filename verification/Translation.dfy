/** PolyPoint, PolyLine and FillPoly under Xinerama (Xext/panoramiXprocs.c): one request, replayed on every screen. */
module Translation {

  /** INT16 */
  type Int16 = x: int | -32768 <= x < 32768 witness 0

  function Wrap16(x: int): Int16 {
    (x + 32768) % 65536 - 32768
  }

  datatype XPoint = XPoint(x: Int16, y: Int16)

  function Minus(p: XPoint, q: XPoint): XPoint {
    XPoint(Wrap16(p.x - q.x), Wrap16(p.y - q.y))
  }

  function Plus(p: XPoint, q: XPoint): XPoint {
    XPoint(Wrap16(p.x + q.x), Wrap16(p.y + q.y))
  }

  datatype CoordMode = CoordModeOrigin | CoordModePrevious

  /** Where point i of a list is: in Previous mode each point but the first is relative to the one before. */
  function Absolute(mode: CoordMode, pts: seq<XPoint>, i: nat): XPoint
    requires i < |pts|
  {
    if mode == CoordModeOrigin || i == 0 then pts[i] else Plus(Absolute(mode, pts, i - 1), pts[i])
  }

  /** pts' draws what pts draws, with the origin moved to `origin`. */
  ghost predicate Moved(mode: CoordMode, pts: seq<XPoint>, pts': seq<XPoint>, origin: XPoint) {
    |pts'| == |pts| &&
    forall i | 0 <= i < |pts| :: Absolute(mode, pts', i) == Minus(Absolute(mode, pts, i), origin)
  }

  /** pts' is pts with the origin taken from the first n points. */
  predicate Shifted(pts: seq<XPoint>, pts': seq<XPoint>, origin: XPoint, n: nat) {
    |pts'| == |pts| && forall i | 0 <= i < |pts| :: pts'[i] == if i < n then Minus(pts[i], origin) else pts[i]
  }

  lemma WrapInside(x: int, y: int)
    ensures Wrap16(Wrap16(x) + y) == Wrap16(x + y)
  {
  }

  lemma WrapMod(x: int)
    ensures exists k :: Wrap16(x) == x + 65536 * k
    ensures -32768 <= x < 32768 ==> Wrap16(x) == x
  {
    assert Wrap16(x) == x + 65536 * (0 - (x + 32768) / 65536);
  }

  /** In 16 bits, taking away takes back what adding did, and adding what taking away did. */
  lemma WrapBack(a: Int16, b: Int16)
    ensures Wrap16(Wrap16(a - b) + b) == a && Wrap16(Wrap16(a + b) - b) == a
  {
    hide Wrap16;
    WrapMod(a);
    WrapInside(a - b, b);
    WrapInside(a + b, 0 - b);
  }

  /** Sums and differences are those of the coordinates modulo 65536, and each takes back what the other does. */
  lemma PlusMinus(p: XPoint, q: XPoint)
    ensures exists k :: Plus(p, q).x == p.x + q.x + 65536 * k
    ensures exists k :: Plus(p, q).y == p.y + q.y + 65536 * k
    ensures exists k :: Minus(p, q).x == p.x - q.x + 65536 * k
    ensures exists k :: Minus(p, q).y == p.y - q.y + 65536 * k
    ensures Plus(Minus(p, q), q) == p && Minus(Plus(p, q), q) == p
  {
    hide Wrap16;
    WrapMod(p.x + q.x);
    WrapMod(p.y + q.y);
    WrapMod(p.x - q.x);
    WrapMod(p.y - q.y);
    WrapBack(p.x, q.x);
    WrapBack(p.y, q.y);
  }

  lemma MinusPlus(p: XPoint, q: XPoint, origin: XPoint)
    ensures Plus(Minus(p, origin), q) == Minus(Plus(p, q), origin)
  {
    hide Wrap16;
    WrapInside(p.x - origin.x, q.x);
    WrapInside(p.y - origin.y, q.y);
    WrapInside(p.x + q.x, 0 - origin.x);
    WrapInside(p.y + q.y, 0 - origin.y);
  }

  lemma {:induction false} MovedAt(mode: CoordMode, pts: seq<XPoint>, pts': seq<XPoint>, origin: XPoint, i: nat)
    requires i < |pts| && Shifted(pts, pts', origin, if mode == CoordModePrevious then 1 else |pts|)
    ensures Absolute(mode, pts', i) == Minus(Absolute(mode, pts, i), origin)
  {
    if mode == CoordModePrevious && i > 0 {
      MovedAt(mode, pts, pts', origin, i - 1);
      MinusPlus(Absolute(mode, pts, i - 1), pts[i], origin);
    }
  }

  /** Shifting one point is enough in Previous mode, and shifting all of them is needed in Origin mode. */
  lemma ShiftedIsMoved(mode: CoordMode, pts: seq<XPoint>, pts': seq<XPoint>, origin: XPoint)
    requires Shifted(pts, pts', origin, if mode == CoordModePrevious then 1 else |pts|)
    ensures Moved(mode, pts, pts', origin)
  {
    forall i | 0 <= i < |pts|
      ensures Absolute(mode, pts', i) == Minus(Absolute(mode, pts, i), origin)
    {
      MovedAt(mode, pts, pts', origin, i);
    }
  }

  /** What a screen's handler does with the request: its result, and what it leaves in the buffer */
  datatype Outcome = Outcome(success: bool, buffer: seq<XPoint>)

  type Handler = (nat, seq<XPoint>) -> Outcome

  ghost predicate KeepsLength(handler: Handler) {
    forall j, pts :: |handler(j, pts).buffer| == |pts|
  }

  method Fill(a: array<XPoint>, s: seq<XPoint>)
    requires |s| == a.Length
    modifies a
    ensures a[..] == s
  {
    for i := 0 to a.Length
      invariant a[..i] == s[..i]
    {
      a[i] := s[i];
    }
  }

  method Shift(pnts: array<XPoint>, mode: CoordMode, origin: XPoint)
    requires pnts.Length > 0
    modifies pnts
    ensures Shifted(old(pnts[..]), pnts[..], origin, if mode == CoordModePrevious then 1 else pnts.Length)
  {
    if origin.x != 0 || origin.y != 0 {
      var i := if mode == CoordModePrevious then 1 else pnts.Length;
      ghost var n := i;
      var k := 0;
      while i != 0
        invariant 0 <= k <= n && i == n - k
        invariant Shifted(old(pnts[..]), pnts[..], origin, k)
      {
        i := i - 1;
        pnts[k] := Minus(pnts[k], origin);
        k := k + 1;
      }
    }
  }

  /**
   * The request in the buffer, replayed on the screens in turn until one refuses it. `received` is what each screen was
   * sent: on a root window, the client's points with the screen's own origin.
   */
  method Replay(origins: seq<XPoint>, isRoot: bool, mode: CoordMode, stuff: array<XPoint>, handler: Handler)
    returns (received: seq<seq<XPoint>>, success: bool)
    requires KeepsLength(handler)
    modifies stuff
    ensures |received| <= |origins|
    ensures forall j | 0 <= j < |received| ::
              Moved(mode, old(stuff[..]), received[j], if isRoot then origins[j] else XPoint(0, 0))
    // point by point: all of them in Origin mode, the first in Previous mode
    ensures forall j, i | 0 <= j < |received| && 0 <= i < |received[j]| ::
              |received[j]| == stuff.Length &&
              received[j][i] == if isRoot && (mode == CoordModeOrigin || i == 0) then Minus(old(stuff[i]), origins[j])
                                else old(stuff[i])
    ensures stuff.Length == 0 ==> received == []
    // only the first screen that refuses it stops the replay
    ensures forall j | 0 <= j < |received| - 1 :: handler(j, received[j]).success
    ensures success <==> stuff.Length == 0 || received == [] || handler(|received| - 1, received[|received| - 1]).success
    ensures success && stuff.Length > 0 ==> |received| == |origins|
  {
    received, success := [], true;
    var npoint := stuff.Length;
    if npoint > 0 {
      var origPts := stuff[..];
      for j := 0 to |origins|
        invariant |received| == j && success
        invariant j == 0 ==> stuff[..] == origPts
        invariant forall k | 0 <= k < j ::
                    Moved(mode, origPts, received[k], if isRoot then origins[k] else XPoint(0, 0))
        invariant forall k, i | 0 <= k < j && 0 <= i < |received[k]| ::
                    |received[k]| == npoint &&
                    received[k][i] == if isRoot && (mode == CoordModeOrigin || i == 0) then Minus(origPts[i], origins[k])
                                      else origPts[i]
        invariant forall k | 0 <= k < j :: handler(k, received[k]).success
      {
        if j > 0 {
          Fill(stuff, origPts);
        }
        if isRoot {
          Shift(stuff, mode, origins[j]);
        }
        ShiftedIsMoved(mode, origPts, stuff[..], if isRoot then origins[j] else XPoint(0, 0));
        received := received + [stuff[..]];
        var outcome := handler(j, stuff[..]);
        Fill(stuff, outcome.buffer);
        if !outcome.success {
          success := false;
          return;
        }
      }
    }
  }
}
