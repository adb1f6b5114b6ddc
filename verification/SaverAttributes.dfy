/** The value list of ScreenSaverSetAttributes (Xext/saver.c): one word for each bit of the mask, lowest bit first. */
module SaverAttributes {
  import opened Options

  type Card32 = x: nat | x < 0x1_0000_0000

  // Bit numbers of the value mask
  const CWBackPixmap := 0
  const CWBackPixel := 1
  const CWBorderPixmap := 2
  const CWBorderPixel := 3
  const CWBitGravity := 4
  const CWWinGravity := 5
  const CWBackingStore := 6
  const CWBackingPlanes := 7
  const CWBackingPixel := 8
  const CWOverrideRedirect := 9
  const CWSaveUnder := 10
  const CWEventMask := 11
  const CWDontPropagate := 12
  const CWColormap := 13
  const CWCursor := 14

  const NONE: Card32 := 0
  const COPY_FROM_PARENT: Card32 := 0
  const PARENT_RELATIVE: Card32 := 1
  const STATIC_GRAVITY := 10

  datatype Status = Success | BadLength | BadMatch | BadValue | LookupFailed(code: nat)

  datatype Lookup<T> = Found(value: T) | Failed(code: nat)

  datatype Pixmap = Pixmap(depth: nat, screen: nat)

  datatype Colormap = Colormap(visual: nat, screen: nat)

  /** The window's depth and visual, its screen and parent, and the client's view of the resources */
  datatype Env = Env(depth: nat, parentDepth: nat, visual: nat, screen: nat, pixmaps: Card32 -> Lookup<Pixmap>,
                     colormaps: Card32 -> Lookup<Colormap>, cursors: Card32 -> Lookup<()>)

  /** client->errorValue of a refusal: left alone, the value read, or the mask of the request */
  datatype ErrorValue = Unset | Word(word: Card32) | WholeMask

  /** What becomes of a word: a value for the window, an object that the attributes hold instead, or an error */
  datatype Reading =
    | Value(value: Card32)
    | Held(id: Card32)
    | Refused(status: Status, errorValue: ErrorValue)

  function ReadPixmap(env: Env, word: Card32): Reading {
    match env.pixmaps(word)
    case Found(pixmap) =>
      if pixmap.depth != env.depth || pixmap.screen != env.screen then Refused(BadMatch, Unset) else Held(word)
    case Failed(code) => Refused(LookupFailed(code), Word(word))
  }

  /** A CARD8 in a word, limited to the values up to `max` */
  function ReadSmall(word: Card32, max: nat): Reading {
    if word % 256 > max then Refused(BadValue, Word(word % 256)) else Value(word % 256)
  }

  /** The switch: bit b of a request whose mask is `mask` */
  function Read(env: Env, mask: set<nat>, b: nat, word: Card32): Reading {
    if b == CWBackPixmap then
      if word == NONE then Value(NONE)
      else if word == PARENT_RELATIVE then
        if env.depth != env.parentDepth then Refused(BadMatch, Unset) else Value(PARENT_RELATIVE)
      else ReadPixmap(env, word)
    else if b == CWBorderPixmap then
      if word == COPY_FROM_PARENT then
        if env.depth != env.parentDepth then Refused(BadMatch, Unset) else Value(COPY_FROM_PARENT)
      else ReadPixmap(env, word)
    else if b in {CWBackPixel, CWBorderPixel, CWBackingPlanes, CWBackingPixel, CWEventMask, CWDontPropagate} then
      Value(word)
    else if b == CWBitGravity || b == CWWinGravity then ReadSmall(word, STATIC_GRAVITY)
    else if b == CWBackingStore then ReadSmall(word, 2)
    else if b == CWSaveUnder then ReadSmall(word, 1)
    else if b == CWOverrideRedirect then
      // always on, whatever the client asked for
      if b in mask && word % 256 > 1 then Refused(BadValue, Word(word % 256)) else Value(1)
    else if b == CWColormap then
      match env.colormaps(word)
      case Found(cmap) =>
        if cmap.visual != env.visual || cmap.screen != env.screen then Refused(BadMatch, Unset) else Held(word)
      case Failed(code) => Refused(LookupFailed(code), Word(word))
    else if b == CWCursor then
      if word == NONE then Value(NONE)
      else
        match env.cursors(word)
        case Found(_) => Held(word)
        case Failed(code) => Refused(LookupFailed(code), Word(word))
    else Refused(BadValue, WholeMask)
  }

  /** The pixmap can be drawn in the window. */
  predicate Drawable(env: Env, id: Card32) {
    match env.pixmaps(id)
    case Found(pixmap) => pixmap.depth == env.depth && pixmap.screen == env.screen
    case Failed(_) => false
  }

  /** Which words are accepted, by the bit's number. */
  lemma AcceptedWords(env: Env, mask: set<nat>, b: nat, word: Card32)
    ensures !Read(env, mask, b, word).Refused? <==>
            match b
            case 0 => word == 0 || if word == 1 then env.depth == env.parentDepth else Drawable(env, word)
            case 2 => if word == 0 then env.depth == env.parentDepth else Drawable(env, word)
            case 4 => word % 256 <= 10
            case 5 => word % 256 <= 10
            case 6 => word % 256 <= 2
            case 9 => 9 in mask ==> word % 256 <= 1
            case 10 => word % 256 <= 1
            case 13 =>
              env.colormaps(word).Found? && env.colormaps(word).value == Colormap(env.visual, env.screen)
            case 14 => word == 0 || env.cursors(word).Found?
            case _ => b < 14
  {
  }

  /** What is done with one that is: objects are held by their names, and of small values and booleans a byte is kept. */
  lemma WordsKept(env: Env, mask: set<nat>, b: nat, word: Card32)
    requires !Read(env, mask, b, word).Refused?
    ensures Read(env, mask, b, word)
         == match b
            case 0 => if word <= 1 then Value(word) else Held(word)
            case 2 => if word == 0 then Value(0) else Held(word)
            case 13 => Held(word)
            case 14 => if word == 0 then Value(0) else Held(word)
            case 9 => Value(1)
            case _ => Value(if b in {4, 5, 6, 10} then word % 256 else word)
  {
  }

  /** And what the client is told of one that is not. */
  lemma WordsRefused(env: Env, mask: set<nat>, b: nat, word: Card32)
    requires Read(env, mask, b, word).Refused?
    ensures match Read(env, mask, b, word).status
            case LookupFailed(code) =>
              && Read(env, mask, b, word).errorValue == Word(word)
              && ((b in {0, 2} && env.pixmaps(word) == Failed(code)) || (b == 13 && env.colormaps(word) == Failed(code))
                  || (b == 14 && env.cursors(word) == Failed(code)))
            case BadMatch =>
              && Read(env, mask, b, word).errorValue == Unset
              && (b in {0, 2} ==> word <= 1 || env.pixmaps(word).Found?) && (b == 13 ==> env.colormaps(word).Found?)
            case BadValue => Read(env, mask, b, word).errorValue == if b > 14 then WholeMask else Word(word % 256)
            case _ => false
    ensures b in {4, 5, 6, 9, 10} || b > 14 <==> Read(env, mask, b, word).status == BadValue
  {
  }

  // Masks as sets of bit numbers.

  /** The number of bits of the mask below b */
  function Rank(mask: set<nat>, b: nat): nat {
    |set x | x in mask && x < b|
  }

  lemma RankBelow(mask: set<nat>, b: nat)
    requires b in mask
    ensures Rank(mask, b) < |mask|
  {
    var below := set x | x in mask && x < b;
    assert below < mask;
    SmallerSet(below, mask);
  }

  lemma {:induction false} SmallerSet<T>(a: set<T>, b: set<T>)
    requires a <= b
    ensures |a| <= |b| && (a < b ==> |a| < |b|)
  {
    if a != {} {
      var x :| x in a;
      SmallerSet(a - {x}, b - {x});
    }
  }

  /** Different bits take different words. */
  lemma RankIncreases(mask: set<nat>, b: nat, c: nat)
    requires b in mask && b < c
    ensures Rank(mask, b) < Rank(mask, c)
  {
    var belowB, belowC := set x | x in mask && x < b, set x | x in mask && x < c;
    assert b in belowC && b !in belowB;
    SmallerSet(belowB, belowC);
  }

  lemma {:induction false} HasLowest(s: set<nat>, a: nat)
    requires a in s
    ensures exists b :: b in s && forall x | x in s :: b <= x
  {
    if x :| x in s && x < a {
      HasLowest(s, x);
    }
  }

  // What a successful request leaves behind.

  /** The bits looked at: override-redirect is, whether or not the client gave it */
  function FullMask(mask: set<nat>): set<nat> {
    mask + {CWOverrideRedirect}
  }

  /** What bit b is read as: its word is the one at its rank among the bits that the client gave. */
  function ReadingOf(env: Env, mask: set<nat>, list: seq<Card32>, b: nat): Reading
    requires |list| == |mask| && b in FullMask(mask)
  {
    if b in mask then
      RankBelow(mask, b);
      Read(env, mask, b, list[Rank(mask, b)])
    else Read(env, mask, b, 0)
  }

  datatype Attr = Attr(mask: set<nat>, values: seq<Card32>, background: Option<Card32>, border: Option<Card32>,
                       colormap: Option<Card32>, cursor: Option<Card32>)

  function HeldId(env: Env, mask: set<nat>, list: seq<Card32>, b: nat): Option<Card32>
    requires |list| == |mask|
  {
    if b in FullMask(mask) && ReadingOf(env, mask, list, b).Held? then Some(ReadingOf(env, mask, list, b).id) else None
  }

  /** The mask kept has the bits with values; the k-th value is that of its k-th lowest bit; the rest are held as objects. */
  ghost predicate Parsed(env: Env, mask: set<nat>, list: seq<Card32>, attr: Attr)
    requires |list| == |mask|
  {
    (forall b | b in FullMask(mask) :: !ReadingOf(env, mask, list, b).Refused?) &&
    attr.mask == (set b | b in FullMask(mask) && ReadingOf(env, mask, list, b).Value?) &&
    |attr.values| == |attr.mask| &&
    (forall b | b in attr.mask ::
      Rank(attr.mask, b) < |attr.values| && attr.values[Rank(attr.mask, b)] == ReadingOf(env, mask, list, b).value) &&
    attr.background == HeldId(env, mask, list, CWBackPixmap) &&
    attr.border == HeldId(env, mask, list, CWBorderPixmap) &&
    attr.colormap == HeldId(env, mask, list, CWColormap) &&
    attr.cursor == HeldId(env, mask, list, CWCursor)
  }

  /**
   * What is kept of a request that succeeds: override-redirect, always on, and of the bits given those that are not held
   * as objects, each with the value of its own word.
   */
  lemma Kept(env: Env, mask: set<nat>, list: seq<Card32>, attr: Attr, b: nat)
    requires |list| == |mask| && Parsed(env, mask, list, attr)
    ensures b in attr.mask <==>
            || b == 9
            || (b in mask && !(b == 0 && attr.background.Some?) && !(b == 2 && attr.border.Some?)
                && !(b == 13 && attr.colormap.Some?) && !(b == 14 && attr.cursor.Some?))
    ensures b in attr.mask ==> |set x | x in attr.mask && x < b| < |attr.values|
    ensures b in attr.mask && b in mask ==> |set x | x in mask && x < b| < |list|
    ensures b in attr.mask ==>
              attr.values[|set x | x in attr.mask && x < b|]
              == if b == 9 then 1
                 else
                   var word := list[|set x | x in mask && x < b|];
                   if b in {4, 5, 6, 10} then word % 256 else word
  {
    var reading := if b in FullMask(mask) then ReadingOf(env, mask, list, b) else Value(0);
    if b in FullMask(mask) {
      if b in mask {
        RankBelow(mask, b);
      }
      var word: Card32 := if b in mask then list[Rank(mask, b)] else 0;
      WordsKept(env, mask, b, word);
      if reading.Held? {
        OnlyObjectsHeld(env, mask, b, word);
      }
    }
  }

  function One(id: Option<Card32>): multiset<Card32> {
    if id.Some? then multiset{id.value} else multiset{}
  }

  /** The references an attribute record holds; a colormap is kept by name only. */
  function References(attr: Attr): multiset<Card32> {
    One(attr.background) + One(attr.border) + One(attr.cursor)
  }

  /** lowbit */
  method LowBit(s: set<nat>) returns (b: nat)
    requires s != {}
    ensures b in s && forall x | x in s :: b <= x
  {
    ghost var a :| a in s;
    HasLowest(s, a);
    b :| b in s && forall x | x in s :: b <= x;
  }

  /** The reference counts of the pixmaps and cursors: who holds what */
  class Resources {
    var held: multiset<Card32>

    constructor ()
      ensures held == multiset{}
    {
      held := multiset{};
    }

    method Take(id: Card32)
      modifies this
      ensures held == old(held) + multiset{id}
    {
      held := held + multiset{id};
    }

    method Drop(id: Option<Card32>)
      requires One(id) <= held
      modifies this
      ensures held == old(held) - One(id)
    {
      if id.Some? {
        held := held - multiset{id.value};
      }
    }
  }

  lemma DropAll(held: multiset<Card32>, a: multiset<Card32>, b: multiset<Card32>, c: multiset<Card32>)
    requires a + b + c <= held
    ensures a <= held && b <= held - a && c <= held - a - b
    ensures held - a - b - c == held - (a + b + c)
  {
  }

  /** FreeAttrs */
  method FreeAttrs(attr: Attr, resources: Resources)
    requires References(attr) <= resources.held
    modifies resources
    ensures resources.held == old(resources.held) - References(attr)
  {
    hide One;
    DropAll(resources.held, One(attr.background), One(attr.border), One(attr.cursor));
    resources.Drop(attr.background);
    resources.Drop(attr.border);
    resources.Drop(attr.cursor);
  }

  ghost predicate AllBelow(s: set<nat>, t: set<nat>) {
    forall a, b | a in s && b in t :: a < b
  }

  ghost predicate Lowest(todo: set<nat>, b: nat) {
    b in todo && forall x | x in todo :: b <= x
  }

  /** Of the bits, those below the next one are the ones done. */
  lemma DoneBelow(full: set<nat>, todo: set<nat>, b: nat)
    requires todo <= full && AllBelow(full - todo, todo) && Lowest(todo, b)
    ensures forall x | x in full :: x < b <==> x !in todo
    ensures AllBelow(full - (todo - {b}), todo - {b})
  {
    forall x | x in full
      ensures x < b <==> x !in todo
    {
      if x !in todo {
        assert x in full - todo;
      }
    }
    forall x, y | x in full - (todo - {b}) && y in todo - {b}
      ensures x < y
    {
      if x != b {
        assert x in full - todo;
      }
    }
  }

  /** `values` has a value for each bit of m, the k-th for the k-th lowest. */
  ghost predicate ValuesFor(env: Env, mask: set<nat>, list: seq<Card32>, m: set<nat>, values: seq<Card32>)
    requires |list| == |mask| && m <= FullMask(mask)
  {
    |values| == |m| &&
    forall b | b in m ::
      ReadingOf(env, mask, list, b).Value? && Rank(m, b) < |values| &&
      values[Rank(m, b)] == ReadingOf(env, mask, list, b).value
  }

  /** The objects held for the bits not in `todo` */
  ghost predicate ObjectsFor(env: Env, mask: set<nat>, list: seq<Card32>, todo: set<nat>, attr: Attr)
    requires |list| == |mask|
  {
    attr.background == (if CWBackPixmap in todo then None else HeldId(env, mask, list, CWBackPixmap)) &&
    attr.border == (if CWBorderPixmap in todo then None else HeldId(env, mask, list, CWBorderPixmap)) &&
    attr.colormap == (if CWColormap in todo then None else HeldId(env, mask, list, CWColormap)) &&
    attr.cursor == (if CWCursor in todo then None else HeldId(env, mask, list, CWCursor))
  }

  /** What has been read when the bits of `todo` are left: `values` starts with a value for each bit of `mask` not in it. */
  ghost predicate SoFar(env: Env, mask: set<nat>, list: seq<Card32>, todo: set<nat>, attr: Attr, values: seq<Card32>)
    requires |list| == |mask|
  {
    var full := FullMask(mask);
    todo <= full && AllBelow(full - todo, todo) &&
    (forall b | b in full - todo :: !ReadingOf(env, mask, list, b).Refused?) &&
    attr.mask == (set b | b in full && (b in todo || ReadingOf(env, mask, list, b).Value?)) &&
    ValuesFor(env, mask, list, attr.mask - todo, values) &&
    ObjectsFor(env, mask, list, todo, attr)
  }

  lemma SoFarNone(env: Env, mask: set<nat>, list: seq<Card32>)
    requires |list| == |mask|
    ensures SoFar(env, mask, list, FullMask(mask), Attr(FullMask(mask), [], None, None, None, None), [])
  {
    hide Read;
  }

  lemma SoFarBounds(env: Env, mask: set<nat>, list: seq<Card32>, todo: set<nat>, attr: Attr, values: seq<Card32>)
    requires |list| == |mask| && SoFar(env, mask, list, todo, attr, values)
    ensures todo <= FullMask(mask) && AllBelow(FullMask(mask) - todo, todo)
    ensures attr.mask <= FullMask(mask) && |values| == |attr.mask - todo|
  {
    hide Read, ReadingOf, Rank, ObjectsFor;
  }

  /** The word for the next bit is the next word. */
  lemma NextWord(env: Env, mask: set<nat>, list: seq<Card32>, todo: set<nat>, attr: Attr, values: seq<Card32>, b: nat)
    requires |list| == |mask| && SoFar(env, mask, list, todo, attr, values) && Lowest(todo, b)
    ensures b in FullMask(mask)
    ensures b in mask ==> |mask - todo| < |list| && |mask - (todo - {b})| == |mask - todo| + 1
    ensures b !in mask ==> b == CWOverrideRedirect && mask - (todo - {b}) == mask - todo
    ensures ReadingOf(env, mask, list, b) == Read(env, mask, b, if b in mask then list[|mask - todo|] else 0)
    ensures |values| < |list| + 1
  {
    hide Read, SoFar;
    SoFarBounds(env, mask, list, todo, attr, values);
    DoneBelow(FullMask(mask), todo, b);
    assert (set x | x in mask && x < b) == mask - todo;
    if b in mask {
      RankBelow(mask, b);
      assert mask - (todo - {b}) == (mask - todo) + {b};
    }
    SmallerSet(attr.mask - todo, FullMask(mask));
    if CWOverrideRedirect in mask {
      assert FullMask(mask) == mask;
    } else {
      assert |mask + {CWOverrideRedirect}| == |mask| + 1;
    }
  }

  lemma RankKept(m: set<nat>, b: nat, c: nat)
    requires c !in m && forall x | x in m :: x < c
    ensures b in m ==> Rank(m + {c}, b) == Rank(m, b)
    ensures Rank(m + {c}, c) == |m|
  {
    if b in m {
      assert (set x | x in m + {c} && x < b) == (set x | x in m && x < b);
    }
    assert (set x | x in m + {c} && x < c) == m;
  }

  lemma OneMoreValue(env: Env, mask: set<nat>, list: seq<Card32>, m: set<nat>, values: seq<Card32>, b: nat)
    requires |list| == |mask| && m <= FullMask(mask) && ValuesFor(env, mask, list, m, values)
    requires b in FullMask(mask) && b !in m && forall x | x in m :: x < b
    requires ReadingOf(env, mask, list, b).Value?
    ensures ValuesFor(env, mask, list, m + {b}, values + [ReadingOf(env, mask, list, b).value])
  {
    hide Read, ReadingOf, Rank;
    forall a | a in m + {b}
      ensures Rank(m + {b}, a) == if a == b then |m| else Rank(m, a)
    {
      RankKept(m, a, b);
    }
  }

  /** A value belongs to no object. */
  lemma SameObjects(env: Env, mask: set<nat>, list: seq<Card32>, todo: set<nat>, attr: Attr, b: nat)
    requires |list| == |mask| && ObjectsFor(env, mask, list, todo, attr) && b in todo && b in FullMask(mask)
    requires ReadingOf(env, mask, list, b).Value?
    ensures ObjectsFor(env, mask, list, todo - {b}, attr)
  {
    hide Read, ReadingOf;
  }

  lemma ReadValue(env: Env, mask: set<nat>, list: seq<Card32>, todo: set<nat>, attr: Attr, values: seq<Card32>, b: nat)
    requires |list| == |mask| && SoFar(env, mask, list, todo, attr, values) && Lowest(todo, b) && b in FullMask(mask)
    requires ReadingOf(env, mask, list, b).Value?
    ensures SoFar(env, mask, list, todo - {b}, attr, values + [ReadingOf(env, mask, list, b).value])
  {
    hide Read, ReadingOf, ValuesFor, ObjectsFor, AllBelow;
    DoneBelow(FullMask(mask), todo, b);
    var m := attr.mask - todo;
    assert attr.mask - (todo - {b}) == m + {b};
    OneMoreValue(env, mask, list, m, values, b);
    SameObjects(env, mask, list, todo, attr, b);
  }

  /** The attributes with an object of bit b */
  function Hold(attr: Attr, b: nat, id: Card32): Attr {
    var attr' := attr.(mask := attr.mask - {b});
    if b == CWBackPixmap then attr'.(background := Some(id))
    else if b == CWBorderPixmap then attr'.(border := Some(id))
    else if b == CWColormap then attr'.(colormap := Some(id))
    else attr'.(cursor := Some(id))
  }

  lemma OnlyObjectsHeld(env: Env, mask: set<nat>, b: nat, word: Card32)
    requires Read(env, mask, b, word).Held?
    ensures b in {CWBackPixmap, CWBorderPixmap, CWColormap, CWCursor} && Read(env, mask, b, word).id == word
  {
  }

  lemma OneMoreObject(env: Env, mask: set<nat>, list: seq<Card32>, todo: set<nat>, attr: Attr, b: nat)
    requires |list| == |mask| && ObjectsFor(env, mask, list, todo, attr) && b in todo && b in FullMask(mask)
    requires ReadingOf(env, mask, list, b).Held? && b in {CWBackPixmap, CWBorderPixmap, CWColormap, CWCursor}
    ensures ObjectsFor(env, mask, list, todo - {b}, Hold(attr, b, ReadingOf(env, mask, list, b).id))
  {
    hide Read, ReadingOf;
  }

  lemma ReadHeld(env: Env, mask: set<nat>, list: seq<Card32>, todo: set<nat>, attr: Attr, values: seq<Card32>, b: nat)
    requires |list| == |mask| && SoFar(env, mask, list, todo, attr, values) && Lowest(todo, b) && b in FullMask(mask)
    requires ReadingOf(env, mask, list, b).Held? && b in {CWBackPixmap, CWBorderPixmap, CWColormap, CWCursor}
    ensures SoFar(env, mask, list, todo - {b}, Hold(attr, b, ReadingOf(env, mask, list, b).id), values)
  {
    hide Read, ReadingOf, ValuesFor, ObjectsFor, AllBelow;
    DoneBelow(FullMask(mask), todo, b);
    var attr' := Hold(attr, b, ReadingOf(env, mask, list, b).id);
    assert attr'.mask - (todo - {b}) == attr.mask - todo;
    OneMoreObject(env, mask, list, todo, attr, b);
  }

  lemma AllRead(env: Env, mask: set<nat>, list: seq<Card32>, attr: Attr, values: seq<Card32>)
    requires |list| == |mask| && SoFar(env, mask, list, {}, attr, values)
    ensures Parsed(env, mask, list, attr.(values := values)) && Accepted(env, mask, list)
    ensures References(attr.(values := values)) == References(attr) && |mask - {}| == |list|
  {
    hide Read, ReadingOf, Rank;
    assert FullMask(mask) - {} == FullMask(mask) && attr.mask - {} == attr.mask && mask - {} == mask;
  }

  /** Every word is accepted. */
  ghost predicate Accepted(env: Env, mask: set<nat>, list: seq<Card32>)
    requires |list| == |mask|
  {
    forall b | b in FullMask(mask) :: !ReadingOf(env, mask, list, b).Refused?
  }

  /** The error is that of the lowest bit refused. */
  ghost predicate FailsWith(env: Env, mask: set<nat>, list: seq<Card32>, status: Status, errorValue: ErrorValue)
    requires |list| == |mask|
  {
    exists b | b in FullMask(mask) ::
      ReadingOf(env, mask, list, b) == Refused(status, errorValue) &&
      forall a | a in FullMask(mask) && a < b :: !ReadingOf(env, mask, list, a).Refused?
  }

  lemma FirstRefused(env: Env, mask: set<nat>, list: seq<Card32>, todo: set<nat>, attr: Attr, values: seq<Card32>,
                     b: nat, status: Status, errorValue: ErrorValue)
    requires |list| == |mask| && SoFar(env, mask, list, todo, attr, values) && Lowest(todo, b) && b in FullMask(mask)
    requires ReadingOf(env, mask, list, b) == Refused(status, errorValue)
    ensures FailsWith(env, mask, list, status, errorValue) && !Accepted(env, mask, list)
  {
    hide Read, ReadingOf, Rank;
    DoneBelow(FullMask(mask), todo, b);
  }

  lemma RefusedIsError(env: Env, mask: set<nat>, b: nat, word: Card32)
    ensures Read(env, mask, b, word).Refused? ==> Read(env, mask, b, word).status != Success
  {
  }

  lemma HoldReferences(env: Env, mask: set<nat>, list: seq<Card32>, todo: set<nat>, attr: Attr, values: seq<Card32>,
                       b: nat, id: Card32)
    requires |list| == |mask| && SoFar(env, mask, list, todo, attr, values) && b in todo
    requires b in {CWBackPixmap, CWBorderPixmap, CWColormap, CWCursor}
    ensures References(Hold(attr, b, id)) == References(attr) + if b == CWColormap then multiset{} else multiset{id}
  {
    hide Read, ReadingOf, Rank;
  }

  lemma NoReferences(mask: set<nat>)
    ensures References(Attr(mask, [], None, None, None, None)) == multiset{}
    ensures mask - mask == {} && |mask - mask| == 0
  {
  }

  lemma MoreReferences(held: multiset<Card32>, r: multiset<Card32>, r': multiset<Card32>)
    requires r <= r'
    ensures held + r + (r' - r) == held + r'
  {
  }

  /** One turn of the switch: a value written, an object held, or an error */
  method ReadBit(env: Env, mask: set<nat>, list: seq<Card32>, todo: set<nat>, attr: Attr, values: array<Card32>, n: nat,
                 imask: nat, word: Card32, resources: Resources)
    returns (reading: Reading, attr': Attr, n': nat)
    requires |list| == |mask| && n < values.Length && SoFar(env, mask, list, todo, attr, values[..n])
    requires Lowest(todo, imask) && imask in todo && imask in FullMask(mask)
    requires ReadingOf(env, mask, list, imask) == Read(env, mask, imask, word)
    modifies resources, values
    ensures reading == ReadingOf(env, mask, list, imask)
    ensures reading.Refused? ==>
              reading.status != Success && FailsWith(env, mask, list, reading.status, reading.errorValue) &&
              !Accepted(env, mask, list) && attr' == attr && resources.held == old(resources.held)
    ensures !reading.Refused? ==>
              n' <= values.Length && SoFar(env, mask, list, todo - {imask}, attr', values[..n']) &&
              References(attr) <= References(attr') &&
              resources.held == old(resources.held) + (References(attr') - References(attr))
  {
    hide *;
    attr', n' := attr, n;
    reading := Read(env, mask, imask, word);
    match reading {
      case Refused(refused, value) =>
        FirstRefused(env, mask, list, todo, attr, values[..n], imask, refused, value);
        RefusedIsError(env, mask, imask, word);
      case Value(value) =>
        ReadValue(env, mask, list, todo, attr, values[..n], imask);
        values[n] := value;
        n' := n + 1;
        assert values[..n'] == old(values[..n]) + [value];
      case Held(id) =>
        OnlyObjectsHeld(env, mask, imask, word);
        ReadHeld(env, mask, list, todo, attr, values[..n], imask);
        HoldReferences(env, mask, list, todo, attr, values[..n], imask, id);
        attr' := Hold(attr, imask, id);
        if imask != CWColormap {
          resources.Take(id);
        }
    }
  }

  method SetAttributes(env: Env, mask: set<nat>, list: seq<Card32>, resources: Resources)
    returns (status: Status, errorValue: ErrorValue, result: Option<Attr>)
    modifies resources
    ensures |mask| != |list| ==> status == BadLength
    ensures |mask| == |list| ==>
              (status == Success <==> Accepted(env, mask, list))
    // on success the attributes hold their own references, and on failure none
    ensures status == Success ==>
              |mask| == |list| && result.Some? && Parsed(env, mask, list, result.value) &&
              resources.held == old(resources.held) + References(result.value)
    ensures status != Success ==> result.None? && resources.held == old(resources.held)
    ensures status != Success && |mask| == |list| ==> FailsWith(env, mask, list, status, errorValue)
  {
    hide *;
    errorValue, result := Unset, None;
    if |mask| != |list| {
      return BadLength, Unset, None;
    }
    // over-allocated for override-redirect
    var values := new Card32[|list| + 1];
    var n: nat, pVlist: int := 0, 0;
    var tmask := FullMask(mask);
    var attr := Attr(tmask, [], None, None, None, None);
    SoFarNone(env, mask, list);
    NoReferences(tmask);
    StartOfList(mask);
    while tmask != {}
      invariant n <= values.Length && SoFar(env, mask, list, tmask, attr, values[..n])
      invariant pVlist == |mask - tmask|
      invariant resources.held == old(resources.held) + References(attr)
      decreases |tmask|
    {
      var imask := LowBit(tmask);
      LowestIs(tmask, imask);
      NextWord(env, mask, list, tmask, attr, values[..n], imask);
      var word: Card32 := 0;
      if imask == CWOverrideRedirect && imask !in mask {
        pVlist := pVlist - 1;
      } else {
        word := list[pVlist];
      }
      var reading, attr', n' := ReadBit(env, mask, list, tmask, attr, values, n, imask, word, resources);
      if reading.Refused? {
        FreeAttrs(attr, resources);
        return reading.status, reading.errorValue, None;
      }
      MoreReferences(old(resources.held), References(attr), References(attr'));
      attr, n := attr', n';
      tmask := tmask - {imask};
      pVlist := pVlist + 1;
    }
    AllRead(env, mask, list, attr, values[..n]);
    // every word has been read
    assert pVlist == |list|;
    return Success, Unset, Some(attr.(values := values[..n]));
  }

  lemma LowestIs(todo: set<nat>, b: nat)
    requires b in todo && forall x | x in todo :: b <= x
    ensures Lowest(todo, b)
  {
  }

  lemma StartOfList(mask: set<nat>)
    ensures |mask - FullMask(mask)| == 0
  {
    assert mask - FullMask(mask) == {};
  }
}
