/** Shared memory segments (Xext/shm.c): the descriptors that clients and pixmaps share, and the list they are on. */
module ShmSegments {
  import opened Options

  type Xid = nat

  /** `Denied` stands for whatever code the access hook refuses with. */
  datatype Status = Success | BadAccess | BadAlloc | BadShmSeg | Denied(code: nat)

  /** A ShmDescRec; its memory is mapped while it has references. */
  class ShmDesc {
    const isFd: bool
    const shmid: int
    const writable: bool
    const size: nat
    var refcnt: nat

    constructor (isFd: bool, shmid: int, writable: bool, size: nat)
      ensures this.isFd == isFd && this.shmid == shmid && this.writable == writable && this.size == size && refcnt == 1
    {
      this.isFd, this.shmid, this.writable, this.size, refcnt := isFd, shmid, writable, size, 1;
    }
  }

  /** A pixmap in a segment, and its own references */
  datatype SharedPixmap = SharedPixmap(desc: ShmDesc, refcnt: nat)

  /** The ShmSeg resources that name a descriptor */
  function SegmentsOf(segments: map<Xid, ShmDesc>, d: ShmDesc): set<Xid> {
    set x | x in segments && segments[x] == d
  }

  function PixmapsOf(pixmaps: map<Xid, SharedPixmap>, d: ShmDesc): set<Xid> {
    set p | p in pixmaps && pixmaps[p].desc == d
  }

  function Names(segments: map<Xid, ShmDesc>, pixmaps: map<Xid, SharedPixmap>, d: ShmDesc): nat {
    |SegmentsOf(segments, d)| + |PixmapsOf(pixmaps, d)|
  }

  lemma SegmentAdded(segments: map<Xid, ShmDesc>, x: Xid, d: ShmDesc, d': ShmDesc)
    requires x !in segments
    ensures |SegmentsOf(segments[x := d], d')| == |SegmentsOf(segments, d')| + if d' == d then 1 else 0
  {
    var after := SegmentsOf(segments[x := d], d');
    if d' == d {
      assert after == SegmentsOf(segments, d') + {x};
    } else {
      assert after == SegmentsOf(segments, d');
    }
  }

  lemma SegmentRemoved(segments: map<Xid, ShmDesc>, x: Xid, d': ShmDesc)
    requires x in segments
    ensures |SegmentsOf(segments, d')| == |SegmentsOf(segments - {x}, d')| + if d' == segments[x] then 1 else 0
  {
    var after := SegmentsOf(segments - {x}, d');
    if d' == segments[x] {
      assert SegmentsOf(segments, d') == after + {x};
    } else {
      assert SegmentsOf(segments, d') == after;
    }
  }

  lemma PixmapAdded(pixmaps: map<Xid, SharedPixmap>, p: Xid, pixmap: SharedPixmap, d': ShmDesc)
    requires p !in pixmaps
    ensures |PixmapsOf(pixmaps[p := pixmap], d')| == |PixmapsOf(pixmaps, d')| + if d' == pixmap.desc then 1 else 0
  {
    var after := PixmapsOf(pixmaps[p := pixmap], d');
    if d' == pixmap.desc {
      assert after == PixmapsOf(pixmaps, d') + {p};
    } else {
      assert after == PixmapsOf(pixmaps, d');
    }
  }

  lemma PixmapRemoved(pixmaps: map<Xid, SharedPixmap>, p: Xid, d': ShmDesc)
    requires p in pixmaps
    ensures |PixmapsOf(pixmaps, d')| == |PixmapsOf(pixmaps - {p}, d')| + if d' == pixmaps[p].desc then 1 else 0
  {
    var after := PixmapsOf(pixmaps - {p}, d');
    if d' == pixmaps[p].desc {
      assert PixmapsOf(pixmaps, d') == after + {p};
    } else {
      assert PixmapsOf(pixmaps, d') == after;
    }
  }

  /** The list is made of different descriptors, of which no two are the same System V segment. */
  ghost predicate Distinct(shmsegs: seq<ShmDesc>) {
    forall i, j | 0 <= i < j < |shmsegs| ::
      shmsegs[i] != shmsegs[j] && !(!shmsegs[i].isFd && !shmsegs[j].isFd && shmsegs[i].shmid == shmsegs[j].shmid)
  }

  function WithoutDesc(s: seq<ShmDesc>, d: ShmDesc): seq<ShmDesc> {
    if s == [] then [] else if s[0] == d then s[1..] else [s[0]] + WithoutDesc(s[1..], d)
  }

  lemma DropAt(s: seq<ShmDesc>, i: nat)
    requires Distinct(s) && i < |s|
    ensures Distinct(s[..i] + s[i + 1..])
    ensures forall d :: d in s[..i] + s[i + 1..] <==> d in s && d != s[i]
  {
    var t := s[..i] + s[i + 1..];
    assert forall j | 0 <= j < |t| :: t[j] == if j < i then s[j] else s[j + 1];
    forall d
      ensures d in t <==> d in s && d != s[i]
    {
      if d in s && d != s[i] {
        var j :| 0 <= j < |s| && s[j] == d;
        assert d == t[if j < i then j else j - 1];
      }
    }
  }

  lemma Unnamed(segments: map<Xid, ShmDesc>, pixmaps: map<Xid, SharedPixmap>, d: ShmDesc)
    requires Names(segments, pixmaps, d) == 0
    ensures forall x | x in segments :: segments[x] != d
    ensures forall p | p in pixmaps :: pixmaps[p].desc != d
  {
    forall x | x in segments
      ensures segments[x] != d
    {
      assert x !in SegmentsOf(segments, d);
    }
    forall p | p in pixmaps
      ensures pixmaps[p].desc != d
    {
      assert p !in PixmapsOf(pixmaps, d);
    }
  }

  lemma {:induction false} WithoutAt(s: seq<ShmDesc>, i: nat)
    requires i < |s| && s[i] !in s[..i]
    ensures WithoutDesc(s, s[i]) == s[..i] + s[i + 1..]
  {
    if i > 0 {
      assert s[1..][..i - 1] == s[1..i] && s[0] in s[..i];
      WithoutAt(s[1..], i - 1);
    }
  }

  class Shm {
    var shmsegs: seq<ShmDesc>
    var segments: map<Xid, ShmDesc>
    var pixmaps: map<Xid, SharedPixmap>

    /** Every name of a descriptor counts once, and the list holds just the descriptors with names; d has `extra` too many. */
    ghost predicate ValidBut(d: ShmDesc?, extra: nat)
      reads this, shmsegs
    {
      Distinct(shmsegs) &&
      (forall x | x in segments :: segments[x] in shmsegs) &&
      (forall p | p in pixmaps :: pixmaps[p].desc in shmsegs && pixmaps[p].refcnt > 0) &&
      (forall d' | d' in shmsegs ::
        d'.refcnt == Names(segments, pixmaps, d') + (if d' == d then extra else 0) && d'.refcnt > 0)
    }

    ghost predicate Valid()
      reads this, shmsegs
    {
      ValidBut(null, 0)
    }

    constructor ()
      ensures Valid() && shmsegs == [] && segments == map[] && pixmaps == map[]
    {
      shmsegs, segments, pixmaps := [], map[], map[];
    }

    /** ShmDetachSegment: the last reference takes the descriptor off the list. */
    method DetachSegment(shmdesc: ShmDesc)
      requires ValidBut(shmdesc, 1) && shmdesc in shmsegs
      modifies this`shmsegs, shmdesc
      ensures Valid()
      ensures shmdesc.refcnt == old(shmdesc.refcnt) - 1
      ensures shmsegs == if shmdesc.refcnt > 0 then old(shmsegs) else WithoutDesc(old(shmsegs), shmdesc)
      ensures shmdesc in shmsegs <==> shmdesc.refcnt > 0
    {
      shmdesc.refcnt := shmdesc.refcnt - 1;
      if shmdesc.refcnt > 0 {
        return;
      }
      var prev := 0;
      while shmsegs[prev] != shmdesc
        invariant prev < |shmsegs| && shmdesc !in shmsegs[..prev] && shmdesc in shmsegs[prev..]
        decreases |shmsegs| - prev
      {
        prev := prev + 1;
      }
      WithoutAt(shmsegs, prev);
      DropAt(shmsegs, prev);
      Unnamed(segments, pixmaps, shmdesc);
      shmsegs := shmsegs[..prev] + shmsegs[prev + 1..];
    }

    /** A request that fails leaves every descriptor, name and count as it was. */
    twostate predicate Same()
      reads this, shmsegs
    {
      shmsegs == old(shmsegs) && segments == old(segments) && pixmaps == old(pixmaps) &&
      forall d | d in shmsegs && d in old(shmsegs) :: d.refcnt == old(d.refcnt)
    }

    /** A reference more to d, that may be new on the list, and no other change to the list */
    twostate predicate Referenced(new d: ShmDesc)
      reads this, d, shmsegs
    {
      (if d in old(shmsegs) then shmsegs == old(shmsegs) && d.refcnt == old(d.refcnt) + 1
       else shmsegs == [d] + old(shmsegs) && d.refcnt == 1) &&
      forall d' | d' in shmsegs && d' in old(shmsegs) && d' != d :: d'.refcnt == old(d'.refcnt)
    }

    /** AddResource, which calls the delete function when it fails */
    method AddSegment(seg: Xid, shmdesc: ShmDesc, added: bool) returns (status: Status)
      requires ValidBut(shmdesc, 1) && shmdesc in shmsegs && seg !in segments
      modifies this, shmdesc
      ensures Valid() && pixmaps == old(pixmaps)
      ensures status == if added then Success else BadAlloc
      ensures added ==>
                shmsegs == old(shmsegs) && shmdesc.refcnt == old(shmdesc.refcnt) &&
                segments == old(segments)[seg := shmdesc]
      ensures !added ==>
                segments == old(segments) && shmdesc.refcnt == old(shmdesc.refcnt) - 1 &&
                shmsegs == if shmdesc.refcnt > 0 then old(shmsegs) else WithoutDesc(old(shmsegs), shmdesc)
    {
      if !added {
        DetachSegment(shmdesc);
        return BadAlloc;
      }
      forall d' | d' in shmsegs
        ensures Names(segments[seg := shmdesc], pixmaps, d')
             == Names(segments, pixmaps, d') + if d' == shmdesc then 1 else 0
      {
        SegmentAdded(segments, seg, shmdesc, d');
      }
      segments := segments[seg := shmdesc];
      return Success;
    }

    /** A new descriptor, at the head of the list */
    method NewSegment(seg: Xid, isFd: bool, shmid: int, writable: bool, size: nat, added: bool) returns (status: Status)
      requires Valid() && seg !in segments
      requires isFd || forall d | d in shmsegs :: d.isFd || d.shmid != shmid
      modifies this
      ensures Valid() && pixmaps == old(pixmaps)
      ensures status == if added then Success else BadAlloc
      ensures status != Success ==> Same()
      ensures status == Success ==>
                seg in segments && segments == old(segments)[seg := segments[seg]] && fresh(segments[seg]) &&
                Referenced(segments[seg]) &&
                segments[seg].isFd == isFd && segments[seg].shmid == shmid && segments[seg].writable == writable &&
                segments[seg].size == size && shmsegs == [segments[seg]] + old(shmsegs)
    {
      var shmdesc := new ShmDesc(isFd, shmid, writable, size);
      forall d | d in shmsegs
        ensures d != shmdesc && Names(segments, pixmaps, d) == d.refcnt
      {
      }
      NotNamed(segments, pixmaps, shmdesc);
      shmsegs := [shmdesc] + shmsegs;
      status := AddSegment(seg, shmdesc, added);
    }

    /** One more resource for a descriptor on the list */
    method ShareSegment(seg: Xid, shmdesc: ShmDesc, added: bool) returns (status: Status)
      requires Valid() && seg !in segments && shmdesc in shmsegs
      modifies this, shmdesc
      ensures Valid() && pixmaps == old(pixmaps)
      ensures status == if added then Success else BadAlloc
      ensures status != Success ==> Same()
      ensures status == Success ==> segments == old(segments)[seg := shmdesc] && Referenced(shmdesc)
    {
      shmdesc.refcnt := shmdesc.refcnt + 1;
      status := AddSegment(seg, shmdesc, added);
    }

    method FindShmid(shmid: int) returns (shmdesc: ShmDesc?)
      ensures shmdesc == null ==> forall d | d in shmsegs :: d.isFd || d.shmid != shmid
      ensures shmdesc != null ==> shmdesc in shmsegs && !shmdesc.isFd && shmdesc.shmid == shmid
    {
      for i := 0 to |shmsegs|
        invariant forall j | 0 <= j < i :: shmsegs[j].isFd || shmsegs[j].shmid != shmid
      {
        if !shmsegs[i].isFd && shmsegs[i].shmid == shmid {
          return shmsegs[i];
        }
      }
      return null;
    }

    /** ProcShmAttach: a segment is mapped once, however many resources name it. */
    method Attach(seg: Xid, shmid: int, readOnly: bool, mapping: Mapping, added: bool) returns (status: Status)
      requires Valid() && seg !in segments
      modifies this, shmsegs
      ensures Valid() && pixmaps == old(pixmaps)
      ensures status != Success ==> Same()
      ensures status == Success ==>
                seg in segments && segments == old(segments)[seg := segments[seg]] &&
                (segments[seg] in old(shmsegs) || fresh(segments[seg])) &&
                Referenced(segments[seg]) &&
                !segments[seg].isFd && segments[seg].shmid == shmid && (readOnly || segments[seg].writable)
      // a segment already on the list is shared, and refused only to those who would write where the server cannot
      ensures forall d | d in old(shmsegs) && !d.isFd && d.shmid == shmid ::
                status == (if !readOnly && !d.writable then BadAccess else if added then Success else BadAlloc) &&
                (status == Success ==> segments[seg] == d)
      // any other is mapped, and put at the head of the list with the size and the access it was mapped with
      ensures (forall d | d in old(shmsegs) :: d.isFd || d.shmid != shmid) ==>
                && status == (match mapping
                              case Failed(noMemory) => if noMemory then BadAlloc else BadAccess
                              case Mapped(_) => if added then Success else BadAlloc)
                && (status == Success ==>
                      fresh(segments[seg]) && shmsegs == [segments[seg]] + old(shmsegs) && mapping.Mapped?
                      && segments[seg].size == mapping.size && segments[seg].writable == !readOnly)
    {
      var shmdesc := FindShmid(shmid);
      if shmdesc != null {
        if !readOnly && !shmdesc.writable {
          return BadAccess;
        }
        status := ShareSegment(seg, shmdesc, added);
      } else {
        if mapping.Failed? {
          return if mapping.noMemory then BadAlloc else BadAccess;
        }
        status := NewSegment(seg, false, shmid, !readOnly, mapping.size, added);
      }
    }

    /** ProcShmAttachFd: a descriptor of its own for every file */
    method AttachFd(seg: Xid, readOnly: bool, mapping: Mapping, added: bool) returns (status: Status)
      requires Valid() && seg !in segments
      modifies this
      ensures Valid() && pixmaps == old(pixmaps)
      ensures status != Success ==> Same()
      ensures status == Success ==>
                seg in segments && segments == old(segments)[seg := segments[seg]] && fresh(segments[seg]) &&
                Referenced(segments[seg]) && segments[seg].isFd && segments[seg].writable == !readOnly &&
                mapping.Mapped? && segments[seg].size == mapping.size && shmsegs == [segments[seg]] + old(shmsegs)
      ensures status == match mapping
                        case Failed(noMemory) => if noMemory then BadAlloc else BadAccess
                        case Mapped(_) => if added then Success else BadAlloc
    {
      if mapping.Failed? {
        return if mapping.noMemory then BadAlloc else BadAccess;
      }
      status := NewSegment(seg, true, 0, !readOnly, mapping.size, added);
    }

    /** FreeResource on a ShmSeg, by ProcShmDetach or when its client goes */
    method FreeSegment(seg: Xid)
      requires Valid() && seg in segments
      modifies this, shmsegs
      ensures Valid() && pixmaps == old(pixmaps) && segments == old(segments) - {seg}
      ensures var d := old(segments)[seg];
              d.refcnt == old(d.refcnt) - 1 &&
              shmsegs == (if d.refcnt > 0 then old(shmsegs) else WithoutDesc(old(shmsegs), d)) &&
              forall d' | d' in old(shmsegs) && d' != d :: d'.refcnt == old(d'.refcnt)
    {
      var shmdesc := segments[seg];
      forall d' | d' in shmsegs
        ensures Names(segments, pixmaps, d') == Names(segments - {seg}, pixmaps, d') + if d' == shmdesc then 1 else 0
      {
        SegmentRemoved(segments, seg, d');
      }
      segments := segments - {seg};
      DetachSegment(shmdesc);
    }

    /**
     * ProcShmCreatePixmap, once its arguments are in order: `made` is whether the driver has made a pixmap, `access` what
     * the access hook says to it, and a pixmap that cannot be added is destroyed again.
     */
    method CreatePixmap(pid: Xid, seg: Xid, made: bool, access: Status, added: bool) returns (status: Status)
      requires Valid() && pid !in pixmaps
      modifies this, shmsegs
      ensures Valid() && segments == old(segments)
      ensures status == if seg !in segments then BadShmSeg
                        else if !made then BadAlloc
                        else if access != Success then access
                        else if added then Success else BadAlloc
      ensures status != Success ==> Same()
      ensures status == Success ==>
                pixmaps == old(pixmaps)[pid := SharedPixmap(segments[seg], 1)] && Referenced(segments[seg])
    {
      if seg !in segments {
        return BadShmSeg;
      }
      if !made {
        return BadAlloc;
      }
      if access != Success {
        return access;
      }
      status := AddPixmap(pid, segments[seg], added);
    }

    method AddPixmap(pid: Xid, shmdesc: ShmDesc, added: bool) returns (status: Status)
      requires Valid() && pid !in pixmaps && shmdesc in shmsegs
      modifies this`pixmaps, this`shmsegs, shmdesc
      ensures Valid()
      ensures status == if added then Success else BadAlloc
      ensures status != Success ==> Same()
      ensures status == Success ==> pixmaps == old(pixmaps)[pid := SharedPixmap(shmdesc, 1)] && Referenced(shmdesc)
    {
      hide ValidBut;
      NewPixmap(pid, shmdesc);
      if !added {
        ghost var with := pixmaps;
        DropPixmap(pid);
        assert pixmaps == with - {pid} == old(pixmaps);
        return BadAlloc;
      }
      return Success;
    }

    method NewPixmap(pid: Xid, shmdesc: ShmDesc)
      requires Valid() && pid !in pixmaps && shmdesc in shmsegs
      modifies this`pixmaps, shmdesc
      ensures Valid() && pixmaps == old(pixmaps)[pid := SharedPixmap(shmdesc, 1)]
      ensures shmdesc.refcnt == old(shmdesc.refcnt) + 1 > 1
    {
      var pixmap := SharedPixmap(shmdesc, 1);
      forall d' | d' in shmsegs
        ensures Names(segments, pixmaps[pid := pixmap], d')
             == Names(segments, pixmaps, d') + if d' == shmdesc then 1 else 0
      {
        PixmapAdded(pixmaps, pid, pixmap, d');
      }
      shmdesc.refcnt := shmdesc.refcnt + 1;
      pixmaps := pixmaps[pid := pixmap];
    }

    /** Another user of the pixmap itself */
    method ReferencePixmap(pid: Xid)
      requires Valid() && pid in pixmaps
      modifies this`pixmaps
      ensures Valid() && pixmaps == old(pixmaps)[pid := old(pixmaps)[pid].(refcnt := old(pixmaps)[pid].refcnt + 1)]
    {
      var more := pixmaps[pid := pixmaps[pid].(refcnt := pixmaps[pid].refcnt + 1)];
      SameNames(segments, pixmaps, more);
      pixmaps := more;
    }

    /** ShmDestroyPixmap: the pixmap's last user gives up its segment. */
    method DestroyPixmap(pid: Xid)
      requires Valid() && pid in pixmaps
      modifies this, shmsegs
      ensures Valid() && segments == old(segments)
      ensures var pixmap := old(pixmaps)[pid]; var d := pixmap.desc;
              (if pixmap.refcnt > 1 then
                 pixmaps == old(pixmaps)[pid := pixmap.(refcnt := pixmap.refcnt - 1)] &&
                 shmsegs == old(shmsegs) && d.refcnt == old(d.refcnt)
               else
                 pixmaps == old(pixmaps) - {pid} && d.refcnt == old(d.refcnt) - 1 &&
                 shmsegs == (if d.refcnt > 0 then old(shmsegs) else WithoutDesc(old(shmsegs), d))) &&
              forall d' | d' in old(shmsegs) && d' != d :: d'.refcnt == old(d'.refcnt)
    {
      var pixmap := pixmaps[pid];
      if pixmap.refcnt == 1 {
        DropPixmap(pid);
      } else {
        var fewer := pixmaps[pid := pixmap.(refcnt := pixmap.refcnt - 1)];
        SameNames(segments, pixmaps, fewer);
        pixmaps := fewer;
      }
    }

    method DropPixmap(pid: Xid)
      requires Valid() && pid in pixmaps
      modifies this`pixmaps, this`shmsegs, pixmaps[pid].desc
      ensures Valid() && pixmaps == old(pixmaps) - {pid}
      ensures var d := old(pixmaps)[pid].desc;
              d.refcnt == old(d.refcnt) - 1 &&
              shmsegs == if d.refcnt > 0 then old(shmsegs) else WithoutDesc(old(shmsegs), d)
    {
      var shmdesc := pixmaps[pid].desc;
      forall d' | d' in shmsegs
        ensures Names(segments, pixmaps, d')
             == Names(segments, pixmaps - {pid}, d') + if d' == shmdesc then 1 else 0
      {
        PixmapRemoved(pixmaps, pid, d');
      }
      pixmaps := pixmaps - {pid};
      DetachSegment(shmdesc);
    }
  }

  lemma NotNamed(segments: map<Xid, ShmDesc>, pixmaps: map<Xid, SharedPixmap>, d: ShmDesc)
    requires forall x | x in segments :: segments[x] != d
    requires forall p | p in pixmaps :: pixmaps[p].desc != d
    ensures Names(segments, pixmaps, d) == 0
  {
    assert SegmentsOf(segments, d) == {} && PixmapsOf(pixmaps, d) == {};
  }

  lemma SameNames(segments: map<Xid, ShmDesc>, pixmaps: map<Xid, SharedPixmap>, pixmaps': map<Xid, SharedPixmap>)
    requires pixmaps'.Keys == pixmaps.Keys && forall p | p in pixmaps :: pixmaps'[p].desc == pixmaps[p].desc
    ensures forall d :: Names(segments, pixmaps', d) == Names(segments, pixmaps, d)
  {
    forall d
      ensures Names(segments, pixmaps', d) == Names(segments, pixmaps, d)
    {
      assert PixmapsOf(pixmaps', d) == PixmapsOf(pixmaps, d);
    }
  }

  /** What the system says when a segment is to be mapped */
  datatype Mapping = Failed(noMemory: bool) | Mapped(size: nat)
}
