/**
 * The reply of XResQueryResourceBytes (Xext/xres.c): a list of fragments, one value and its cross
 * references after the other, built while resources and their subresources are visited.
 */
module XRes {
  import opened Options
  import opened Wire
  import opened HashTable

  type Xid = nat

  const SIZEOF_SIZE_SPEC: nat := 20
  const SIZEOF_SIZE_VALUE: nat := 24

  datatype SizeSpec = SizeSpec(resource: nat, kind: nat, bytes: nat, refCount: nat, useCount: nat)

  datatype Fragment = Value(size: SizeSpec, numCrossReferences: nat) | CrossReference(size: SizeSpec)

  /** What the size function of a resource type reports. */
  datatype ResourceSize = ResourceSize(resourceSize: nat, refCnt: nat)

  /** One call that FindSubResources makes: the subresource, where it is in memory, and its size. */
  datatype Visit = Visit(address: nat, id: Xid, kind: nat, size: ResourceSize)

  datatype Status = Success | BadAlloc

  // ----- what the list means -----

  /**
   * One resource of the reply with its subresources. `visits` is what FindSubResources called for it, and
   * `places` says which of the references stands for the object at an address.
   */
  datatype Group = Group(size: SizeSpec, refs: seq<SizeSpec>, visits: seq<Visit>, places: map<nat, nat>)

  function CrossReferences(refs: seq<SizeSpec>): (r: seq<Fragment>)
    ensures |r| == |refs|
    ensures forall i :: 0 <= i < |refs| ==> r[i] == CrossReference(refs[i])
  {
    seq(|refs|, i requires 0 <= i < |refs| => CrossReference(refs[i]))
  }

  function Written(g: Group): seq<Fragment> {
    [Value(g.size, |g.refs|)] + CrossReferences(g.refs)
  }

  function AllWritten(gs: seq<Group>): seq<Fragment> {
    if gs == [] then [] else AllWritten(gs[..|gs| - 1]) + Written(gs[|gs| - 1])
  }

  function Bytes(f: Fragment): nat {
    if f.Value? then SIZEOF_SIZE_VALUE else SIZEOF_SIZE_SPEC
  }

  function TotalBytes(fs: seq<Fragment>): nat {
    if fs == [] then 0 else TotalBytes(fs[..|fs| - 1]) + Bytes(fs[|fs| - 1])
  }

  function Values(fs: seq<Fragment>): nat {
    if fs == [] then 0 else Values(fs[..|fs| - 1]) + if fs[|fs| - 1].Value? then 1 else 0
  }

  function UseCounts(refs: seq<SizeSpec>): nat {
    if refs == [] then 0 else UseCounts(refs[..|refs| - 1]) + refs[|refs| - 1].useCount
  }

  /** A value followed by exactly as many cross references as it announces, again and again. */
  predicate WellFormed(fs: seq<Fragment>)
    decreases |fs|
  {
    fs == [] ||
    (fs[0].Value? && fs[0].numCrossReferences < |fs|
     && (forall i :: 1 <= i <= fs[0].numCrossReferences ==> fs[i].CrossReference?)
     && WellFormed(fs[fs[0].numCrossReferences + 1..]))
  }

  function VisitsOf(visits: seq<Visit>, address: nat): nat {
    if visits == [] then 0
    else VisitsOf(visits[..|visits| - 1], address) + if visits[|visits| - 1].address == address then 1 else 0
  }

  /** Reference i stands for a visited object. */
  ghost predicate StandsForOne(places: map<nat, nat>, i: nat) {
    exists o :: o in places && places[o] == i
  }

  /** The reference describes an object as its first visit did. */
  ghost predicate Describes(ref: SizeSpec, visits: seq<Visit>, o: nat) {
    exists k :: 0 <= k < |visits| && FirstVisit(visits, o, k)
      && ref.resource == visits[k].id && ref.kind == visits[k].kind
      && ref.bytes == visits[k].size.resourceSize && ref.refCount == visits[k].size.refCnt
  }

  predicate FirstVisit(visits: seq<Visit>, o: nat, k: nat)
    requires k < |visits|
  {
    visits[k].address == o && forall j :: 0 <= j < k ==> visits[j].address != o
  }

  lemma DescribesNext(ref: SizeSpec, visits: seq<Visit>, v: Visit, o: nat)
    requires Describes(ref, visits, o)
    ensures Describes(ref, visits + [v], o)
  {
    var k :| 0 <= k < |visits| && FirstVisit(visits, o, k)
      && ref.resource == visits[k].id && ref.kind == visits[k].kind
      && ref.bytes == visits[k].size.resourceSize && ref.refCount == visits[k].size.refCnt;
    assert FirstVisit(visits + [v], o, k);
  }

  lemma DescribesNew(visits: seq<Visit>, v: Visit)
    requires VisitsOf(visits, v.address) == 0
    ensures Describes(SizeSpec(v.id, v.kind, v.size.resourceSize, v.size.refCnt, 1), visits + [v], v.address)
  {
    NeverVisited(visits, v.address);
    assert FirstVisit(visits + [v], v.address, |visits|);
  }

  lemma {:induction false} NeverVisited(visits: seq<Visit>, o: nat)
    requires VisitsOf(visits, o) == 0
    ensures forall j :: 0 <= j < |visits| ==> visits[j].address != o
  {
    if visits != [] {
      NeverVisited(visits[..|visits| - 1], o);
    }
  }

  /**
   * Every visited object has a reference of its own, which describes it as its first visit did and counts how often it was
   * visited; the counts add up to the visits made for the resource, and there are no other references.
   */
  ghost predicate Counted(g: Group) {
    && (forall o :: o in g.places ==> g.places[o] < |g.refs| && Describes(g.refs[g.places[o]], g.visits, o))
    && (forall i :: 0 <= i < |g.refs| ==> StandsForOne(g.places, i))
    && (forall o :: o in g.places ==> g.places[o] < |g.refs| && g.refs[g.places[o]].useCount == VisitsOf(g.visits, o))
    && (forall o, p :: o in g.places && p in g.places && o != p ==> g.places[o] != g.places[p])
    && (forall o :: o !in g.places ==> VisitsOf(g.visits, o) == 0)
    && UseCounts(g.refs) == |g.visits|
  }

  lemma VisitsOfNext(visits: seq<Visit>, v: Visit, o: nat)
    ensures VisitsOf(visits + [v], o) == VisitsOf(visits, o) + if v.address == o then 1 else 0
  {
    assert (visits + [v])[..|visits|] == visits;
  }

  /** No resource id appears twice. */
  ghost predicate DistinctIds(gs: seq<Group>) {
    forall i, j :: 0 <= i < j < |gs| ==> gs[i].size.resource != gs[j].size.resource
  }

  // ----- lemmas about the list -----

  lemma {:induction false} TotalBytesConcat(a: seq<Fragment>, b: seq<Fragment>)
    ensures TotalBytes(a + b) == TotalBytes(a) + TotalBytes(b)
    ensures Values(a + b) == Values(a) + Values(b)
  {
    if b == [] {
      assert a + b == a;
    } else {
      TotalBytesConcat(a, b[..|b| - 1]);
      assert (a + b)[..|a + b| - 1] == a + b[..|b| - 1];
    }
  }

  lemma {:induction false} BytesOfReferences(refs: seq<SizeSpec>)
    ensures TotalBytes(CrossReferences(refs)) == |refs| * SIZEOF_SIZE_SPEC && Values(CrossReferences(refs)) == 0
  {
    if refs != [] {
      var n := |refs| - 1;
      assert CrossReferences(refs)[..n] == CrossReferences(refs[..n]);
      BytesOfReferences(refs[..n]);
    }
  }

  lemma {:induction false} BytesOfGroups(gs: seq<Group>)
    ensures Values(AllWritten(gs)) == |gs|
  {
    if gs != [] {
      var n := |gs| - 1;
      BytesOfGroups(gs[..n]);
      TotalBytesConcat(AllWritten(gs[..n]), Written(gs[n]));
      TotalBytesConcat([Value(gs[n].size, |gs[n].refs|)], CrossReferences(gs[n].refs));
      BytesOfReferences(gs[n].refs);
      assert Values([Value(gs[n].size, |gs[n].refs|)]) == 1;
    }
  }

  lemma OneGroup(g: Group)
    ensures WellFormed(Written(g))
  {
    var w := Written(g);
    assert w[|g.refs| + 1..] == [];
  }

  lemma {:induction false} WellFormedConcat(fs: seq<Fragment>, g: Group)
    requires WellFormed(fs)
    ensures WellFormed(fs + Written(g))
    decreases |fs|
  {
    hide Written;
    var w := Written(g);
    if fs == [] {
      assert [] + w == w;
      OneGroup(g);
    } else {
      var k := fs[0].numCrossReferences + 1;
      WellFormedConcat(fs[k..], g);
      assert (fs + w)[k..] == fs[k..] + w;
    }
  }

  lemma {:induction false} GroupsWellFormed(gs: seq<Group>)
    ensures WellFormed(AllWritten(gs))
  {
    if gs != [] {
      GroupsWellFormed(gs[..|gs| - 1]);
      WellFormedConcat(AllWritten(gs[..|gs| - 1]), gs[|gs| - 1]);
    }
  }

  lemma UseCountsNext(refs: seq<SizeSpec>, r: SizeSpec)
    ensures UseCounts(refs + [r]) == UseCounts(refs) + r.useCount
  {
    assert (refs + [r])[..|refs|] == refs;
  }

  lemma {:induction false} UseCountsUpdate(refs: seq<SizeSpec>, i: nat)
    requires i < |refs|
    ensures UseCounts(refs[i := refs[i].(useCount := refs[i].useCount + 1)]) == UseCounts(refs) + 1
  {
    var n := |refs| - 1;
    var refs' := refs[i := refs[i].(useCount := refs[i].useCount + 1)];
    if i < n {
      UseCountsUpdate(refs[..n], i);
      assert refs'[..n] == refs[..n][i := refs[i].(useCount := refs[i].useCount + 1)];
    } else {
      assert refs'[..n] == refs[..n];
    }
  }

  // ----- building the list -----

  /** The group after one more visit: a new reference, or one more use of the one the object has. */
  function Visited(g: Group, v: Visit): Group
    requires v.address in g.places ==> g.places[v.address] < |g.refs|
  {
    if v.address in g.places then
      var i := g.places[v.address];
      g.(refs := g.refs[i := g.refs[i].(useCount := g.refs[i].useCount + 1)], visits := g.visits + [v])
    else
      g.(refs := g.refs + [SizeSpec(v.id, v.kind, v.size.resourceSize, v.size.refCnt, 1)],
         visits := g.visits + [v], places := g.places[v.address := |g.refs|])
  }

  lemma VisitsAfter(g: Group, v: Visit)
    requires v.address in g.places ==> g.places[v.address] < |g.refs|
    ensures forall o :: VisitsOf(Visited(g, v).visits, o) == VisitsOf(g.visits, o) + if v.address == o then 1 else 0
  {
    forall o ensures VisitsOf(Visited(g, v).visits, o) == VisitsOf(g.visits, o) + if v.address == o then 1 else 0 {
      VisitsOfNext(g.visits, v, o);
    }
  }

  lemma VisitedDescribed(g: Group, v: Visit)
    requires Counted(g)
    ensures var g' := Visited(g, v);
      && (forall o :: o in g'.places ==> g'.places[o] < |g'.refs| && Describes(g'.refs[g'.places[o]], g'.visits, o))
      && (forall i :: 0 <= i < |g'.refs| ==> StandsForOne(g'.places, i))
  {
    hide VisitsOf, UseCounts, Describes;
    var g' := Visited(g, v);
    forall o | o in g'.places
      ensures g'.places[o] < |g'.refs| && Describes(g'.refs[g'.places[o]], g'.visits, o)
    {
      if o in g.places {
        DescribesNext(g.refs[g.places[o]], g.visits, v, o);
        SameDescribes(g.refs[g.places[o]], g'.refs[g'.places[o]], g'.visits, o);
      } else {
        DescribesNew(g.visits, v);
      }
    }
    forall i | 0 <= i < |g'.refs|
      ensures StandsForOne(g'.places, i)
    {
      if i < |g.refs| {
        assert StandsForOne(g.places, i);
        var o :| o in g.places && g.places[o] == i;
        assert o in g'.places && g'.places[o] == i;
      } else {
        assert v.address in g'.places && g'.places[v.address] == i;
      }
    }
  }

  lemma SameDescribes(ref: SizeSpec, ref': SizeSpec, visits: seq<Visit>, o: nat)
    requires Describes(ref, visits, o) && ref' == ref.(useCount := ref'.useCount)
    ensures Describes(ref', visits, o)
  {
  }

  lemma VisitedUses(g: Group, v: Visit)
    requires Counted(g)
    ensures var g' := Visited(g, v);
      && (forall o :: o in g'.places ==>
            g'.places[o] < |g'.refs| && g'.refs[g'.places[o]].useCount == VisitsOf(g'.visits, o))
      && (forall o :: o !in g'.places ==> VisitsOf(g'.visits, o) == 0)
      && UseCounts(g'.refs) == |g'.visits|
  {
    hide VisitsOf, UseCounts, Describes, StandsForOne;
    VisitsAfter(g, v);
    if v.address in g.places {
      UseCountsUpdate(g.refs, g.places[v.address]);
    } else {
      UseCountsNext(g.refs, SizeSpec(v.id, v.kind, v.size.resourceSize, v.size.refCnt, 1));
    }
  }

  lemma VisitedCounted(g: Group, v: Visit)
    requires Counted(g)
    ensures Counted(Visited(g, v))
  {
    hide VisitsOf, UseCounts, Describes, StandsForOne;
    VisitedUses(g, v);
    VisitedDescribed(g, v);
  }

  lemma PlaceInRange(g: Group, o: nat)
    requires Counted(g) && o in g.places
    ensures g.places[o] < |g.refs|
  {
  }

  lemma AppendReference(done: seq<Fragment>, g: Group, r: SizeSpec)
    ensures var fs := done + Written(g);
      (fs + [CrossReference(r)])[|done| := Value(g.size, |g.refs| + 1)] == done + Written(g.(refs := g.refs + [r]))
  {
    var g' := g.(refs := g.refs + [r]);
    assert CrossReferences(g'.refs) == CrossReferences(g.refs) + [CrossReference(r)];
  }

  lemma UpdateReference(done: seq<Fragment>, g: Group, i: nat, r: SizeSpec)
    requires i < |g.refs|
    ensures (done + Written(g))[|done| + 1 + i := CrossReference(r)] == done + Written(g.(refs := g.refs[i := r]))
  {
    assert CrossReferences(g.refs[i := r]) == CrossReferences(g.refs)[i := CrossReference(r)];
  }

  /** Everything the reply promises while all allocations have succeeded. */
  ghost predicate Reply(response: seq<Fragment>, resultBytes: nat, numSizes: nat, seen: set<Xid>, gs: seq<Group>) {
    && response == AllWritten(gs) && resultBytes == TotalBytes(response) && numSizes == |gs|
    && DistinctIds(gs) && (forall i :: 0 <= i < |gs| ==> Counted(gs[i]))
    && seen == set g | g in gs :: g.size.resource
  }

  /** The reply is well-formed, and its header announces as many values and bytes as it has. */
  lemma ReplyIsWellFormed(response: seq<Fragment>, resultBytes: nat, numSizes: nat, seen: set<Xid>, gs: seq<Group>)
    requires Reply(response, resultBytes, numSizes, seen, gs)
    ensures WellFormed(response) && Values(response) == numSizes && TotalBytes(response) == resultBytes
  {
    GroupsWellFormed(gs);
    BytesOfGroups(gs);
  }

  lemma ReplyGrows(response: seq<Fragment>, resultBytes: nat, numSizes: nat, seen: set<Xid>, gs: seq<Group>, g: Group)
    requires Reply(response, resultBytes, numSizes, seen, gs) && Counted(g) && g.size.resource !in seen
    ensures Reply(response + Written(g), resultBytes + |g.refs| * SIZEOF_SIZE_SPEC + SIZEOF_SIZE_VALUE, numSizes + 1,
                  seen + {g.size.resource}, gs + [g])
  {
    assert (gs + [g])[..|gs|] == gs;
    TotalBytesConcat(response, Written(g));
    TotalBytesConcat([Value(g.size, |g.refs|)], CrossReferences(g.refs));
    BytesOfReferences(g.refs);
    assert TotalBytes([Value(g.size, |g.refs|)]) == SIZEOF_SIZE_VALUE by {
      assert [Value(g.size, |g.refs|)][..0] == [];
    }
    assert forall x :: x in gs + [g] <==> x in gs || x == g;
  }

  /** One more resource, with the visits made for it. */
  ghost predicate GroupAdded(gs: seq<Group>, gs': seq<Group>, size: SizeSpec, subs: seq<Visit>) {
    |gs'| == |gs| + 1 && gs'[..|gs|] == gs && gs'[|gs|].size == size && gs'[|gs|].visits == subs
  }

  /** ConstructResourceBytesCtx */
  class Context {
    var status: Status
    var response: seq<Fragment>
    var resultBytes: nat
    var numSizes: nat
    /** the outcomes of the allocations, and how many have been asked for */
    const memory: nat -> bool
    var asked: nat
    const visitedResources: HashTable<Xid, ()>
    /** the resources in the reply so far, while all has gone well */
    ghost var groups: seq<Group>

    ghost predicate Valid()
      reads this, visitedResources, visitedResources.buckets
    {
      && visitedResources.Valid()
      && (status == Success ==> Reply(response, resultBytes, numSizes, visitedResources.contents.Keys, groups))
    }

    constructor (hash: (Xid, nat) -> nat, memory: nat -> bool)
      requires IsHash(hash)
      ensures Valid() && status == Success && groups == [] && fresh(visitedResources) && fresh(visitedResources.buckets)
      ensures this.memory == memory && asked == 0
    {
      this.memory, asked := memory, 0;
      status, response, resultBytes, numSizes := Success, [], 0, 0;
      visitedResources := new HashTable(hash);
      groups := [];
    }

    /** The objects in the table are the referenced subresources, each with the place of its fragment. */
    ghost predicate Subs(table: HashTable<nat, nat>, base: nat, g: Group)
      reads table, table.buckets
    {
      && table.Valid() && table.contents.Keys == g.places.Keys
      && forall o :: o in table.contents ==> table.contents[o] == base + 1 + g.places[o]
    }

    method Allocate() returns (ok: bool)
      modifies this`asked
      ensures ok == memory(old(asked)) && asked == old(asked) + 1
    {
      ok, asked := memory(asked), asked + 1;
    }

    /** An allocation has failed, after the first `from`. */
    ghost predicate Exhausted(from: nat)
      reads this
    {
      exists k :: from <= k < asked && !memory(k)
    }

    /** AddFragment: the new fragment is the last of the list. */
    method AddFragment(f: Fragment) returns (ok: bool)
      modifies this`response, this`asked
      ensures response == if ok then old(response) + [f] else old(response)
      ensures asked == old(asked) + 1 && ok == memory(old(asked))
    {
      ok := Allocate();
      if ok {
        response := response + [f];
      }
    }

    /** The reply up to `base` is `done`, and after it comes what is known of the resource being visited. */
    ghost predicate Partial(table: HashTable<nat, nat>, base: nat, done: seq<Fragment>, g: Group)
      reads this, table, table.buckets
    {
      Subs(table, base, g) && |done| == base && response == done + Written(g) && Counted(g)
    }

    /** A fragment and an entry in the table of subresources, if there is memory for both. */
    method Reserve(f: Fragment, address: nat, table: HashTable<nat, nat>) returns (ok: bool)
      requires status == Success && table.Valid() && address !in table.contents
      modifies this`status, this`asked, this`response, table, table.buckets
      ensures old(asked) <= asked && (old(status) == Success && status != Success ==> Exhausted(old(asked)))
      ensures table.buckets == old(table.buckets) || fresh(table.buckets)
      ensures ok == (status == Success)
      ensures ok ==> table.Valid() && table.contents == old(table.contents)[address := |old(response)|]
                     && response == old(response) + [f]
    {
      ok := AddFragment(f);
      if ok {
        var nodeMemory := Allocate();
        var tableMemory := Allocate();
        ok := table.Add(address, |response| - 1, nodeMemory, tableMemory);
      }
      if !ok {
        status := BadAlloc;
      }
    }

    /** The subresource has not been visited yet: it gets a fragment and an entry in the table. */
    method NewReference(v: Visit, table: HashTable<nat, nat>, base: nat, ghost done: seq<Fragment>, ghost g: Group)
      requires status == Success && Partial(table, base, done, g) && v.address !in table.contents
      modifies this`status, this`asked, this`response, this`resultBytes, table, table.buckets
      ensures old(asked) <= asked && (old(status) == Success && status != Success ==> Exhausted(old(asked)))
      ensures table.buckets == old(table.buckets) || fresh(table.buckets)
      ensures status == Success ==> Partial(table, base, done, Visited(g, v))
      ensures status == Success ==> resultBytes == old(resultBytes) + SIZEOF_SIZE_SPEC
    {
      hide Counted, HashTable.Valid;
      ghost var g' := Visited(g, v);
      VisitedCounted(g, v);
      var size := SizeSpec(v.id, v.kind, v.size.resourceSize, v.size.refCnt, 1);
      var ok := Reserve(CrossReference(size), v.address, table);
      if !ok {
        return;
      }
      var value := response[base];
      response := response[base := Value(value.size, value.numCrossReferences + 1)];
      resultBytes := resultBytes + SIZEOF_SIZE_SPEC;
      AppendReference(done, g, size);
    }

    /** The subresource has been visited: one more use. */
    method CountAgain(v: Visit, place: nat, table: HashTable<nat, nat>, base: nat, ghost done: seq<Fragment>,
        ghost g: Group)
      requires Partial(table, base, done, g) && v.address in table.contents && place == table.contents[v.address]
      modifies this`response
      ensures Partial(table, base, done, Visited(g, v))
    {
      hide HashTable.Valid, Counted;
      PlaceInRange(g, v.address);
      ghost var i := g.places[v.address];
      VisitedCounted(g, v);
      assert response[place] == CrossReference(g.refs[i]);
      var crossRef := response[place].size;
      response := response[place := CrossReference(crossRef.(useCount := crossRef.useCount + 1))];
      UpdateReference(done, g, i, crossRef.(useCount := crossRef.useCount + 1));
    }

    /** AddSubResourceSizeSpec: one visit made for the value at position `base`. */
    method AddSubResource(v: Visit, table: HashTable<nat, nat>, base: nat, ghost done: seq<Fragment>, ghost g: Group)
      requires status == Success ==> Partial(table, base, done, g)
      modifies this`status, this`asked, this`response, this`resultBytes, table, table.buckets
      ensures old(asked) <= asked && (old(status) == Success && status != Success ==> Exhausted(old(asked)))
      ensures table.buckets == old(table.buckets) || fresh(table.buckets)
      ensures status == Success ==>
        && old(status) == Success && (v.address in g.places ==> g.places[v.address] < |g.refs|)
        && Partial(table, base, done, Visited(g, v))
        && resultBytes == old(resultBytes) + (|Visited(g, v).refs| - |g.refs|) * SIZEOF_SIZE_SPEC
    {
      if status != Success {
        return;
      }
      var prev := table.Find(v.address);
      if prev.None? {
        NewReference(v, table, base, done, g);
      } else {
        CountAgain(v, prev.value, table, base, done, g);
      }
    }

    /** FindSubResources, calling AddSubResourceSizeSpec for each subresource in turn. */
    method AddSubResources(subs: seq<Visit>, table: HashTable<nat, nat>, base: nat, ghost done: seq<Fragment>,
        ghost g0: Group)
      returns (ghost g: Group)
      requires status == Success && Partial(table, base, done, g0) && g0.refs == [] && g0.visits == []
      modifies this`status, this`asked, this`response, this`resultBytes, table, table.buckets
      ensures old(asked) <= asked && (old(status) == Success && status != Success ==> Exhausted(old(asked)))
      ensures status == Success ==>
        && response == done + Written(g) && Counted(g) && g.visits == subs && g.size == g0.size
        && resultBytes == old(resultBytes) + |g.refs| * SIZEOF_SIZE_SPEC
    {
      hide Counted;
      g := g0;
      for i := 0 to |subs|
        invariant table.buckets == old(table.buckets) || fresh(table.buckets)
        invariant old(asked) <= asked && (status != Success ==> Exhausted(old(asked)))
        invariant status == Success ==>
          && Partial(table, base, done, g) && g.visits == subs[..i] && g.size == g0.size
          && resultBytes == old(resultBytes) + |g.refs| * SIZEOF_SIZE_SPEC
      {
        AddSubResource(subs[i], table, base, done, g);
        if status == Success {
          g := Visited(g, subs[i]);
        }
      }
    }

    /** The visits made for a resource whose value is the last fragment, with a table of their own. */
    method VisitSubResources(subs: seq<Visit>, subHash: (nat, nat) -> nat, base: nat,
        ghost done: seq<Fragment>, size: SizeSpec)
      returns (ghost g: Group)
      requires status == Success && IsHash(subHash) && |done| == base && response == done + [Value(size, 0)]
      modifies this`status, this`asked, this`response, this`resultBytes
      ensures old(asked) <= asked && (old(status) == Success && status != Success ==> Exhausted(old(asked)))
      ensures status == Success ==>
        && response == done + Written(g) && Counted(g) && g.visits == subs && g.size == size
        && resultBytes == old(resultBytes) + |g.refs| * SIZEOF_SIZE_SPEC
    {
      var table := new HashTable<nat, nat>(subHash);
      g := Group(size, [], [], map[]);
      assert Written(g) == [Value(size, 0)];
      hide HashTable.Valid;
      g := AddSubResources(subs, table, base, done, g);
    }

    /** A fragment, an entry in the table of resources and a table for the subresources, if there is memory for all. */
    method ReserveValue(f: Fragment, id: Xid) returns (ok: bool)
      requires status == Success && visitedResources.Valid() && id !in visitedResources.contents
      modifies this`status, this`asked, this`response, visitedResources, visitedResources.buckets
      ensures old(asked) <= asked && (old(status) == Success && status != Success ==> Exhausted(old(asked)))
      ensures visitedResources.buckets == old(visitedResources.buckets) || fresh(visitedResources.buckets)
      ensures visitedResources.Valid() && ok == (status == Success)
      ensures ok ==> response == old(response) + [f]
                     && visitedResources.contents.Keys == old(visitedResources.contents.Keys) + {id}
    {
      hide HashTable.Valid;
      ok := AddFragment(f);
      if ok {
        var nodeMemory := Allocate();
        var tableMemory := Allocate();
        ok := visitedResources.Add(id, (), nodeMemory, tableMemory);
      }
      var htMemory := Allocate();
      ok := ok && htMemory;
      if !ok {
        status := BadAlloc;
      }
    }

    /** AddResourceSizeValue: a resource that is not in the reply yet, and the visits FindSubResources makes for it. */
    method AddResource(id: Xid, kind: nat, size: ResourceSize, subs: seq<Visit>, subHash: (nat, nat) -> nat)
      requires Valid() && IsHash(subHash)
      modifies this, visitedResources, visitedResources.buckets
      // it fails only where an allocation has failed
      ensures old(asked) <= asked && (old(status) == Success && status != Success ==> Exhausted(old(asked)))
      ensures Valid() && (visitedResources.buckets == old(visitedResources.buckets) || fresh(visitedResources.buckets))
      ensures old(status) != Success ==> status == old(status) && response == old(response)
      ensures status == Success && id in old(visitedResources.contents) ==> response == old(response) && groups == old(groups)
      ensures status == Success && id !in old(visitedResources.contents) ==>
        GroupAdded(old(groups), groups, SizeSpec(id, kind, size.resourceSize, size.refCnt, 1), subs)
    {
      hide Reply, HashTable.Valid, Counted, IsHash;
      if status != Success {
        return;
      }
      var seen := visitedResources.Find(id);
      if seen.Some? {
        return;
      }
      ghost var done, bytes, sizes, gs, ids := response, resultBytes, numSizes, groups, visitedResources.contents.Keys;
      var base := |response|;
      var ok := ReserveValue(Value(SizeSpec(id, kind, size.resourceSize, size.refCnt, 1), 0), id);
      if !ok {
        return;
      }
      ghost var g := VisitSubResources(subs, subHash, base, done, SizeSpec(id, kind, size.resourceSize, size.refCnt, 1));
      resultBytes := resultBytes + SIZEOF_SIZE_VALUE;
      numSizes := numSizes + 1;
      if status == Success {
        ReplyGrows(done, bytes, sizes, ids, gs, g);
        groups := groups + [g];
      }
    }
  }

  // ----- swapping -----

  /** swapl */
  function Swapl(x: nat): nat {
    x % 0x100 * 0x100_0000 + x / 0x100 % 0x100 * 0x1_0000 + x / 0x1_0000 % 0x100 * 0x100 + x / 0x100_0000
  }

  lemma LowByte(x: nat, a: nat)
    requires a < 0x100
    ensures (x * 0x100 + a) % 0x100 == a && (x * 0x100 + a) / 0x100 == x
  {
  }

  lemma Bytes4(a: nat, b: nat, c: nat, d: nat)
    requires a < 0x100 && b < 0x100 && c < 0x100 && d < 0x100
    ensures Swapl(a * 0x100_0000 + b * 0x1_0000 + c * 0x100 + d) == d * 0x100_0000 + c * 0x1_0000 + b * 0x100 + a
  {
    var abc, ab := a * 0x1_0000 + b * 0x100 + c, a * 0x100 + b;
    var x := abc * 0x100 + d;
    LowByte(abc, d);
    LowByte(ab, c);
    LowByte(a, b);
    assert x / 0x1_0000 == ab && x / 0x100_0000 == a;
  }

  lemma FourBytes(x: Card32) returns (a: nat, b: nat, c: nat, d: nat)
    ensures a < 0x100 && b < 0x100 && c < 0x100 && d < 0x100
    ensures x == a * 0x100_0000 + b * 0x1_0000 + c * 0x100 + d
  {
    var q1, q2 := x / 0x100, x / 0x100 / 0x100;
    a, b, c, d := q2 / 0x100, q2 % 0x100, q1 % 0x100, x % 0x100;
    assert x == q1 * 0x100 + d && q1 == q2 * 0x100 + c && q2 == a * 0x100 + b;
  }

  /** Swapping twice gives the number back. */
  lemma SwaplInverse(x: Card32)
    ensures Swapl(Swapl(x)) == x
  {
    hide Swapl;
    var a, b, c, d := FourBytes(x);
    Bytes4(a, b, c, d);
    Bytes4(d, c, b, a);
  }

  function SwapSize(s: SizeSpec): SizeSpec {
    SizeSpec(Swapl(s.resource), Swapl(s.kind), Swapl(s.bytes), Swapl(s.refCount), Swapl(s.useCount))
  }

  function SwapFragment(f: Fragment): Fragment {
    match f
    case Value(size, n) => Value(SwapSize(size), Swapl(n))
    case CrossReference(size) => CrossReference(SwapSize(size))
  }

  /** The words of a fragment, as they are sent */
  function Words(f: Fragment): seq<nat> {
    [f.size.resource, f.size.kind, f.size.bytes, f.size.refCount, f.size.useCount]
      + if f.Value? then [f.numCrossReferences] else []
  }

  /** Swapping a fragment swaps each of its words, and its bytes are those of its words. */
  lemma SwapsWords(f: Fragment)
    ensures Bytes(f) == 4 * |Words(f)|
    ensures |Words(SwapFragment(f))| == |Words(f)|
    ensures forall k :: 0 <= k < |Words(f)| ==> Words(SwapFragment(f))[k] == Swapl(Words(f)[k])
  {
  }

  /** The inner loop of SwapXResQueryResourceBytes: the n cross references that follow a value. */
  method SwapReferences(response: array<Fragment>, from: nat, n: nat)
    requires from + n <= response.Length && forall i :: from <= i < from + n ==> response[i].CrossReference?
    modifies response
    ensures forall i :: 0 <= i < response.Length ==>
      response[i] == if from <= i < from + n then SwapFragment(old(response[i])) else old(response[i])
  {
    var it := from;
    for c := 0 to n
      invariant it == from + c
      invariant forall i :: 0 <= i < response.Length ==>
        response[i] == if from <= i < it then SwapFragment(old(response[i])) else old(response[i])
    {
      response[it] := CrossReference(SwapSize(response[it].size));
      it := it + 1;
    }
  }

  /** The value at `it`, its references, and what comes after them. */
  lemma WellFormedAt(fs: seq<Fragment>, it: nat)
    requires it < |fs| && WellFormed(fs[it..])
    ensures fs[it].Value?
    ensures var n := fs[it].numCrossReferences;
      && it + n < |fs| && (forall i :: it + 1 <= i < it + 1 + n ==> fs[i].CrossReference?)
      && WellFormed(fs[it + 1 + n..])
  {
    var rest := fs[it..];
    var n := rest[0].numCrossReferences;
    assert fs[it + 1 + n..] == rest[n + 1..];
    forall i | it + 1 <= i < it + 1 + n ensures fs[i].CrossReference? {
      assert fs[i] == rest[i - it];
    }
  }

  /** SwapXResQueryResourceBytes: every fragment is swapped, and none twice. */
  method SwapResponse(response: array<Fragment>)
    requires WellFormed(response[..])
    modifies response
    ensures forall i :: 0 <= i < response.Length ==> response[i] == SwapFragment(old(response[i]))
  {
    hide WellFormed, Swapl, SwapSize;
    var it := 0;
    ghost var fs := response[..];
    assert fs[0..] == fs;
    while it < response.Length
      invariant it <= response.Length
      invariant forall i :: 0 <= i < response.Length ==> response[i] == if i < it then SwapFragment(fs[i]) else fs[i]
      invariant WellFormed(fs[it..])
    {
      WellFormedAt(fs, it);
      var value := it;
      var n := response[value].numCrossReferences;
      SwapReferences(response, value + 1, n);
      response[value] := Value(SwapSize(response[value].size), Swapl(n));
      it := value + 1 + n;
    }
  }
}
