/**
 * The removal of duplicate font metrics in ProcXF86BigfontQueryFont (Xext/xf86bigfont.c): a chained
 * hash table laid out in one array of CARD16, grown and rebuilt in place, and the reply it leads to.
 */
module Bigfont {

  type Card16 = x: int | 0 <= x < 0x1_0000 witness 0

  /** The end of a chain: (CARD16) (-1) */
  const NIL: Card16 := 0xffff

  datatype CharInfo = CharInfo(
    leftSideBearing: int,
    rightSideBearing: int,
    characterWidth: int,
    ascent: int,
    descent: int,
    attributes: int)

  /** Storing an index in a CARD16 */
  function Truncate(x: nat): Card16 {
    x % 0x1_0000
  }

  /** hashCI: nothing is assumed of it but that it is a function of the metrics. */
  type Hash = CharInfo -> nat

  /** hashCI(p) % hashModulus */
  function Slot(hash: Hash, p: CharInfo, modulus: nat): (h: nat)
    requires modulus > 0
    ensures h < modulus
  {
    hash(p) % modulus
  }

  // ----- chains -----

  /** `link` leads from entry `from` (or from a head, when `from` is the number of entries) to the last earlier entry of slot h. */
  ghost predicate LinksBack(slots: seq<nat>, from: nat, h: nat, link: Card16)
    requires from <= |slots| <= NIL
  {
    if link == NIL then forall e :: 0 <= e < from ==> slots[e] != h
    else link < from && slots[link] == h && forall e :: link < e < from ==> slots[e] != h
  }

  predicate AllNil(s: seq<Card16>) {
    forall i :: 0 <= i < |s| ==> s[i] == NIL
  }

  /** The chains are those that come from putting the entries, one after the other, in front of their chains. */
  ghost predicate Chained(heads: seq<Card16>, nexts: seq<Card16>, slots: seq<nat>)
    decreases |slots|
  {
    |nexts| == |slots| <= NIL &&
    if slots == [] then AllNil(heads)
    else
      var e := |slots| - 1;
      slots[e] < |heads| && heads[slots[e]] == e
      && Chained(heads[slots[e] := nexts[e]], nexts[..e], slots[..e])
  }

  /** Every entry is reachable from the head of its slot... */
  lemma {:induction false} HeadLinks(heads: seq<Card16>, nexts: seq<Card16>, slots: seq<nat>, h: nat)
    requires Chained(heads, nexts, slots) && h < |heads|
    ensures LinksBack(slots, |slots|, h, heads[h])
    decreases |slots|
  {
    if slots != [] {
      var e := |slots| - 1;
      if slots[e] != h {
        HeadLinks(heads[slots[e] := nexts[e]], nexts[..e], slots[..e], h);
        LinksBackLonger(slots[..e], slots, e, h, heads[h]);
        assert forall k :: 0 <= k < e ==> slots[..e][k] == slots[k];
      }
    }
  }

  /** ... by links that strictly decrease and pass no entry of the slot. */
  lemma {:induction false} NextLinks(heads: seq<Card16>, nexts: seq<Card16>, slots: seq<nat>, i: nat)
    requires Chained(heads, nexts, slots) && i < |slots|
    ensures LinksBack(slots, i, slots[i], nexts[i])
    decreases |slots|
  {
    var e := |slots| - 1;
    var before := heads[slots[e] := nexts[e]];
    if i == e {
      HeadLinks(before, nexts[..e], slots[..e], slots[e]);
      LinksBackLonger(slots[..e], slots, e, slots[e], nexts[e]);
    } else {
      NextLinks(before, nexts[..e], slots[..e], i);
      LinksBackLonger(slots[..e], slots, i, slots[i], nexts[i]);
    }
  }

  lemma LinksBackLonger(slots: seq<nat>, longer: seq<nat>, from: nat, h: nat, link: Card16)
    requires from <= |slots| <= |longer| <= NIL && longer[..|slots|] == slots && LinksBack(slots, from, h, link)
    ensures LinksBack(longer, from, h, link)
  {
    assert forall k :: 0 <= k < |slots| ==> longer[k] == slots[k];
  }

  /** Putting a new entry in front of a chain. */
  lemma InsertKeepsChains(heads: seq<Card16>, nexts: seq<Card16>, slots: seq<nat>, h: nat)
    requires Chained(heads, nexts, slots) && h < |heads| && |slots| < NIL
    ensures Chained(heads[h := |slots|], nexts + [heads[h]], slots + [h])
  {
    assert heads[h := |slots|][h := heads[h]] == heads;
    assert (nexts + [heads[h]])[..|slots|] == nexts;
    assert (slots + [h])[..|slots|] == slots;
  }

  predicate Below(s: seq<Card16>, n: nat) {
    forall i :: 0 <= i < |s| ==> s[i] < n
  }

  // ----- what the tables mean -----

  /** uniq lists the first occurrence of each different metric, in order; index leads each metric to its own. */
  ghost predicate Compressed(pCI: seq<CharInfo>, n: nat, index: seq<Card16>, uniq: seq<Card16>)
    requires n <= |pCI|
  {
    && |index| == n
    && (forall j :: 0 <= j < n ==> index[j] < |uniq| && uniq[index[j]] <= j && pCI[uniq[index[j]]] == pCI[j])
    && (forall i :: 0 <= i < |uniq| ==> uniq[i] < n && forall j :: 0 <= j < uniq[i] ==> pCI[j] != pCI[uniq[i]])
    && (forall i, j :: 0 <= i < j < |uniq| ==> uniq[i] < uniq[j])
  }

  /** The slots of the entries, under the current modulus. */
  ghost function SlotsOf(pCI: seq<CharInfo>, hash: Hash, uniq: seq<Card16>, modulus: nat): (r: seq<nat>)
    requires modulus > 0 && Below(uniq, |pCI|)
    ensures |r| == |uniq|
  {
    seq(|uniq|, i requires 0 <= i < |uniq| => Slot(hash, pCI[uniq[i]], modulus))
  }

  /** Distinct metrics in the order of their first occurrence: what the unique table is meant to be. */
  function Distinct(s: seq<CharInfo>): seq<CharInfo> {
    if s == [] then []
    else
      var p := Distinct(s[..|s| - 1]);
      if s[|s| - 1] in p then p else p + [s[|s| - 1]]
  }

  lemma {:induction false} DistinctMembers(s: seq<CharInfo>)
    ensures forall x :: x in Distinct(s) <==> x in s
  {
    if s != [] {
      DistinctMembers(s[..|s| - 1]);
      assert s == s[..|s| - 1] + [s[|s| - 1]];
    }
  }

  function Expand(infos: seq<CharInfo>, index: seq<Card16>): seq<CharInfo>
    requires forall j :: 0 <= j < |index| ==> index[j] < |infos|
  {
    seq(|index|, j requires 0 <= j < |index| => infos[index[j]])
  }

  ghost function Pick(pCI: seq<CharInfo>, uniq: seq<Card16>): (r: seq<CharInfo>)
    requires Below(uniq, |pCI|)
    ensures |r| == |uniq|
  {
    seq(|uniq|, i requires 0 <= i < |uniq| => pCI[uniq[i]])
  }

  /** Dropping the last metric drops the last unique entry exactly if that is where it first occurred. */
  lemma CompressedPrefix(pCI: seq<CharInfo>, n: nat, index: seq<Card16>, uniq: seq<Card16>)
    requires 0 < n <= |pCI| && Compressed(pCI, n, index, uniq)
    ensures var u := if |uniq| > 0 && uniq[|uniq| - 1] == n - 1 then uniq[..|uniq| - 1] else uniq;
      Compressed(pCI, n - 1, index[..n - 1], u)
  {
    var last := |uniq| > 0 && uniq[|uniq| - 1] == n - 1;
    var u := if last then uniq[..|uniq| - 1] else uniq;
    forall j | 0 <= j < n - 1
      ensures index[j] < |u| && u[index[j]] <= j && pCI[u[index[j]]] == pCI[j]
    {
      assert uniq[index[j]] <= j;
    }
    assert forall i :: 0 <= i < |u| ==> uniq[i] < n && u[i] == uniq[i] && u[i] < n - 1;
  }

  lemma DistinctNext(s: seq<CharInfo>, n: nat)
    requires 0 < n <= |s|
    ensures Distinct(s[..n]) == if s[n - 1] in s[..n - 1] then Distinct(s[..n - 1]) else Distinct(s[..n - 1]) + [s[n - 1]]
  {
    assert s[..n][..n - 1] == s[..n - 1];
    DistinctMembers(s[..n - 1]);
  }

  lemma PickNext(pCI: seq<CharInfo>, uniq: seq<Card16>)
    requires |uniq| > 0 && Below(uniq, |pCI|)
    ensures Pick(pCI, uniq) == Pick(pCI, uniq[..|uniq| - 1]) + [pCI[uniq[|uniq| - 1]]]
  {
  }

  /** The last metric is new exactly if the last unique entry is its own. */
  lemma LastIsNew(pCI: seq<CharInfo>, n: nat, index: seq<Card16>, uniq: seq<Card16>)
    requires 0 < n <= |pCI| && Compressed(pCI, n, index, uniq)
    ensures pCI[n - 1] !in pCI[..n - 1] <==> |uniq| > 0 && uniq[|uniq| - 1] == n - 1
  {
    var k := uniq[index[n - 1]];
    assert index[n - 1] == |uniq| - 1 || k < uniq[|uniq| - 1];
    if uniq[|uniq| - 1] == n - 1 {
      assert forall j :: 0 <= j < n - 1 ==> pCI[j] != pCI[n - 1];
    } else {
      assert k < n - 1 && pCI[k] == pCI[n - 1] && pCI[..n - 1][k] == pCI[k];
    }
  }

  /** The compression is exact: the unique table can only be the distinct metrics in order of first occurrence. */
  lemma {:induction false} UniqueTableIsDistinct(pCI: seq<CharInfo>, n: nat, index: seq<Card16>, uniq: seq<Card16>)
    requires n <= |pCI| && Compressed(pCI, n, index, uniq)
    ensures Below(uniq, |pCI|) && Pick(pCI, uniq) == Distinct(pCI[..n])
    decreases n
  {
    if n == 0 {
      assert |uniq| == 0;
    } else {
      CompressedPrefix(pCI, n, index, uniq);
      LastIsNew(pCI, n, index, uniq);
      DistinctNext(pCI, n);
      if |uniq| > 0 && uniq[|uniq| - 1] == n - 1 {
        UniqueTableIsDistinct(pCI, n - 1, index[..n - 1], uniq[..|uniq| - 1]);
        PickNext(pCI, uniq);
      } else {
        UniqueTableIsDistinct(pCI, n - 1, index[..n - 1], uniq);
      }
    }
  }

  /** No two entries of the unique table are equal. */
  lemma UniqueEntriesDiffer(pCI: seq<CharInfo>, n: nat, index: seq<Card16>, uniq: seq<Card16>, i: nat, j: nat)
    requires n <= |pCI| && Compressed(pCI, n, index, uniq) && i < j < |uniq|
    ensures pCI[uniq[i]] != pCI[uniq[j]]
  {
    assert uniq[i] < uniq[j];
  }

  /** The compression is reversible. */
  lemma ExpandInverts(pCI: seq<CharInfo>, index: seq<Card16>, uniq: seq<Card16>)
    requires Compressed(pCI, |pCI|, index, uniq)
    ensures forall j :: 0 <= j < |index| ==> index[j] < |Pick(pCI, uniq)|
    ensures Expand(Pick(pCI, uniq), index) == pCI
  {
  }

  // ----- the table in its array -----

  /** The four sub-arrays of the one allocation of 4n + 1 elements. */
  ghost predicate Laid(t: seq<Card16>, n: nat, u: nat, modulus: nat) {
    |t| == 4 * n + 1 && u <= n && 0 < modulus <= n + 1
  }

  ghost function Uniq(t: seq<Card16>, n: nat, u: nat): seq<Card16>
    requires |t| == 4 * n + 1 && u <= n
  {
    t[n..n + u]
  }

  ghost function Nexts(t: seq<Card16>, n: nat, u: nat): seq<Card16>
    requires |t| == 4 * n + 1 && u <= n
  {
    t[2 * n..2 * n + u]
  }

  ghost function Heads(t: seq<Card16>, n: nat, modulus: nat): seq<Card16>
    requires |t| == 4 * n + 1 && modulus <= n + 1
  {
    t[3 * n..3 * n + modulus]
  }

  /** The table in its parts: the entries of uniq, chained under the number of heads. */
  ghost predicate Chains(pCI: seq<CharInfo>, hash: Hash, heads: seq<Card16>, nexts: seq<Card16>, uniq: seq<Card16>) {
    |heads| > 0 && Below(uniq, |pCI|) && Chained(heads, nexts, SlotsOf(pCI, hash, uniq, |heads|))
  }

  /** The state of the table: `u` entries, chained under `modulus`. */
  ghost predicate Table(t: seq<Card16>, pCI: seq<CharInfo>, hash: Hash, u: nat, modulus: nat) {
    var n := |pCI|;
    Laid(t, n, u, modulus) && Chains(pCI, hash, Heads(t, n, modulus), Nexts(t, n, u), Uniq(t, n, u))
  }

  lemma LinkedChains(pCI: seq<CharInfo>, hash: Hash, heads: seq<Card16>, nexts: seq<Card16>, uniq: seq<Card16>,
      j: Card16)
    requires Chains(pCI, hash, heads, nexts, uniq) && |uniq| < NIL && j < |pCI|
    ensures var h := Slot(hash, pCI[j], |heads|);
      Chains(pCI, hash, heads[h := |uniq|], nexts + [heads[h]], uniq + [j])
  {
    var h := Slot(hash, pCI[j], |heads|);
    var slots := SlotsOf(pCI, hash, uniq, |heads|);
    InsertKeepsChains(heads, nexts, slots, h);
    assert SlotsOf(pCI, hash, uniq + [j], |heads|) == slots + [h];
  }

  /** pHash2UniqIndex[j] = (CARD16) (-1) for the first `modulus` heads */
  method ClearHeads(tmp: array<Card16>, n: nat, modulus: nat)
    requires tmp.Length == 4 * n + 1 && modulus <= n + 1
    modifies tmp
    ensures tmp[..3 * n] == old(tmp[..3 * n])
    ensures AllNil(Heads(tmp[..], n, modulus))
  {
    for j := 0 to modulus
      invariant tmp[..3 * n] == old(tmp[..3 * n])
      invariant AllNil(Heads(tmp[..], n, j))
    {
      tmp[3 * n + j] := NIL;
      assert Heads(tmp[..], n, j + 1) == Heads(tmp[..], n, j) + [NIL];
    }
  }

  /** The same for the first u entries of pUniqIndex2NextUniqIndex */
  method ClearNexts(tmp: array<Card16>, n: nat, u: nat)
    requires tmp.Length == 4 * n + 1 && u <= n
    modifies tmp
    ensures tmp[..2 * n] == old(tmp[..2 * n]) && tmp[3 * n..] == old(tmp[3 * n..])
    ensures AllNil(Nexts(tmp[..], n, u))
  {
    for i := 0 to u
      invariant tmp[..2 * n] == old(tmp[..2 * n]) && tmp[3 * n..] == old(tmp[3 * n..])
      invariant AllNil(Nexts(tmp[..], n, i))
    {
      tmp[2 * n + i] := NIL;
      assert Nexts(tmp[..], n, i + 1) == Nexts(tmp[..], n, i) + [NIL];
    }
  }

  lemma LinkedParts(t: seq<Card16>, n: nat, u: nat, modulus: nat, h: nat)
    requires Laid(t, n, u, modulus) && u < n <= 0x1_0000 && h < modulus
    ensures var t' := t[2 * n + u := t[3 * n + h]][3 * n + h := u];
      && Uniq(t', n, u + 1) == Uniq(t, n, u) + [t[n + u]]
      && Heads(t', n, modulus) == Heads(t, n, modulus)[h := u]
      && Nexts(t', n, u + 1) == Nexts(t, n, u) + [Heads(t, n, modulus)[h]]
  {
  }

  lemma PartsTable(t: seq<Card16>, pCI: seq<CharInfo>, hash: Hash, u: nat, modulus: nat,
                   heads: seq<Card16>, nexts: seq<Card16>, uniq: seq<Card16>)
    requires Laid(t, |pCI|, u, modulus) && Chains(pCI, hash, heads, nexts, uniq)
    requires Heads(t, |pCI|, modulus) == heads && Nexts(t, |pCI|, u) == nexts && Uniq(t, |pCI|, u) == uniq
    ensures Table(t, pCI, hash, u, modulus)
  {
  }

  lemma LinkedTable(t: seq<Card16>, pCI: seq<CharInfo>, hash: Hash, u: nat, modulus: nat)
    requires |pCI| <= 0x1_0000 && Table(t, pCI, hash, u, modulus) && u < |pCI| && u < NIL && t[|pCI| + u] < |pCI|
    ensures var h := Slot(hash, pCI[t[|pCI| + u]], modulus);
      Table(t[2 * |pCI| + u := t[3 * |pCI| + h]][3 * |pCI| + h := u], pCI, hash, u + 1, modulus)
  {
    hide Chains;
    var n := |pCI|;
    var j := t[n + u];
    var h := Slot(hash, pCI[j], modulus);
    var heads, nexts, uniq := Heads(t, n, modulus), Nexts(t, n, u), Uniq(t, n, u);
    LinkedChains(pCI, hash, heads, nexts, uniq, j);
    LinkedParts(t, n, u, modulus, h);
    PartsTable(t[2 * n + u := t[3 * n + h]][3 * n + h := u], pCI, hash, u + 1, modulus,
               heads[h := u], nexts + [heads[h]], uniq + [j]);
  }

  /** Links entry u, whose metric is already in place, in front of its chain. */
  method Link(tmp: array<Card16>, u: nat, n: nat, h: nat)
    requires tmp.Length == 4 * n + 1 && u < n <= 0x1_0000 && h <= n
    modifies tmp
    ensures tmp[..] == old(tmp[..])[2 * n + u := old(tmp[3 * n + h])][3 * n + h := u]
    ensures tmp[..2 * n] == old(tmp[..2 * n])
  {
    tmp[2 * n + u] := tmp[3 * n + h];
    tmp[3 * n + h] := Truncate(u);
  }

  lemma EmptyTable(t: seq<Card16>, pCI: seq<CharInfo>, hash: Hash, modulus: nat)
    requires Laid(t, |pCI|, 0, modulus) && AllNil(Heads(t, |pCI|, modulus))
    ensures Table(t, pCI, hash, 0, modulus)
  {
    assert Nexts(t, |pCI|, 0) == [];
    assert SlotsOf(pCI, hash, Uniq(t, |pCI|, 0), modulus) == [];
  }

  method Relink(tmp: array<Card16>, pCI: seq<CharInfo>, hash: Hash, i: nat, modulus: nat)
    requires |pCI| <= 0x1_0000 && Table(tmp[..], pCI, hash, i, modulus) && i < |pCI| && i < NIL && tmp[|pCI| + i] < |pCI|
    modifies tmp
    ensures Table(tmp[..], pCI, hash, i + 1, modulus)
    ensures tmp[..2 * |pCI|] == old(tmp[..2 * |pCI|])
  {
    hide Chains;
    LinkedTable(tmp[..], pCI, hash, i, modulus);
    Link(tmp, i, |pCI|, Slot(hash, pCI[tmp[|pCI| + i]], modulus));
  }

  /** The chains are emptied; the two index tables stay. */
  method ClearTable(tmp: array<Card16>, pCI: seq<CharInfo>, hash: Hash, u: nat, modulus: nat)
    requires |pCI| <= 0x1_0000 && Laid(tmp[..], |pCI|, u, modulus) && u < |pCI|
    modifies tmp
    ensures Table(tmp[..], pCI, hash, 0, modulus)
    ensures tmp[..2 * |pCI|] == old(tmp[..2 * |pCI|])
  {
    hide Table;
    var n := |pCI|;
    ghost var front := tmp[..2 * n];
    ClearHeads(tmp, n, modulus);
    assert tmp[..2 * n] == tmp[..3 * n][..2 * n] == front;
    ghost var heads := Heads(tmp[..], n, modulus);
    assert heads == tmp[3 * n..][..modulus];
    ClearNexts(tmp, n, u);
    assert Heads(tmp[..], n, modulus) == tmp[3 * n..][..modulus] == heads;
    EmptyTable(tmp[..], pCI, hash, modulus);
  }

  /** The table is made larger: all chains are rebuilt under the new modulus. */
  method Rehash(tmp: array<Card16>, pCI: seq<CharInfo>, hash: Hash, u: nat, modulus: nat)
    requires |pCI| <= 0x1_0000 && Laid(tmp[..], |pCI|, u, modulus) && u < |pCI| && Below(Uniq(tmp[..], |pCI|, u), |pCI|)
    modifies tmp
    ensures Table(tmp[..], pCI, hash, u, modulus)
    ensures tmp[..2 * |pCI|] == old(tmp[..2 * |pCI|])
  {
    hide Table;
    var n := |pCI|;
    ghost var front := tmp[..2 * n];
    ghost var uniq := Uniq(tmp[..], n, u);
    assert uniq == front[n..n + u];
    ClearTable(tmp, pCI, hash, u, modulus);
    for i := 0 to u
      invariant tmp[..2 * n] == front && Table(tmp[..], pCI, hash, i, modulus)
    {
      assert tmp[n + i] == front[n + i] == uniq[i];
      Relink(tmp, pCI, hash, i, modulus);
    }
  }

  /** p is not among the entries from `from` on. */
  ghost predicate NotFrom(pCI: seq<CharInfo>, uniq: seq<Card16>, p: CharInfo, from: nat)
    requires Below(uniq, |pCI|)
  {
    forall e :: from <= e < |uniq| ==> pCI[uniq[e]] != p
  }

  /** The search stands at entry i (or at the end) of the chain of p's slot, and has passed no entry equal to p. */
  ghost predicate Searching(pCI: seq<CharInfo>, hash: Hash, modulus: nat, uniq: seq<Card16>, p: CharInfo, i: Card16)
    requires modulus > 0 && Below(uniq, |pCI|)
  {
    if i == NIL then NotFrom(pCI, uniq, p, 0)
    else i < |uniq| && Slot(hash, pCI[uniq[i]], modulus) == Slot(hash, p, modulus) && NotFrom(pCI, uniq, p, i + 1)
  }

  /** Entries equal to p are in the slot of p: a link that passes no entry of that slot passes none of them. */
  lemma LinkPassesNone(pCI: seq<CharInfo>, hash: Hash, modulus: nat, uniq: seq<Card16>, p: CharInfo, from: nat,
      link: Card16)
    requires modulus > 0 && Below(uniq, |pCI|) && from <= |uniq| <= NIL && NotFrom(pCI, uniq, p, from)
    requires LinksBack(SlotsOf(pCI, hash, uniq, modulus), from, Slot(hash, p, modulus), link)
    ensures Searching(pCI, hash, modulus, uniq, p, link)
  {
    var slots := SlotsOf(pCI, hash, uniq, modulus);
    forall e | (if link == NIL then 0 else link + 1) <= e < |uniq| ensures pCI[uniq[e]] != p {
      if e < from {
        assert slots[e] != Slot(hash, p, modulus);
      }
    }
  }

  lemma SearchStarts(pCI: seq<CharInfo>, hash: Hash, heads: seq<Card16>, nexts: seq<Card16>, uniq: seq<Card16>,
      p: CharInfo)
    requires Chains(pCI, hash, heads, nexts, uniq)
    ensures Searching(pCI, hash, |heads|, uniq, p, heads[Slot(hash, p, |heads|)])
  {
    HeadLinks(heads, nexts, SlotsOf(pCI, hash, uniq, |heads|), Slot(hash, p, |heads|));
    LinkPassesNone(pCI, hash, |heads|, uniq, p, |uniq|, heads[Slot(hash, p, |heads|)]);
  }

  lemma SearchGoesOn(pCI: seq<CharInfo>, hash: Hash, heads: seq<Card16>, nexts: seq<Card16>, uniq: seq<Card16>,
      p: CharInfo, i: Card16)
    requires Chains(pCI, hash, heads, nexts, uniq) && Searching(pCI, hash, |heads|, uniq, p, i) && i != NIL
    requires pCI[uniq[i]] != p
    ensures (nexts[i] == NIL || nexts[i] < i) && Searching(pCI, hash, |heads|, uniq, p, nexts[i])
  {
    var slots := SlotsOf(pCI, hash, uniq, |heads|);
    NextLinks(heads, nexts, slots, i);
    assert slots[i] == Slot(hash, p, |heads|);
    LinkPassesNone(pCI, hash, |heads|, uniq, p, i, nexts[i]);
  }

  /** Follows the chain of p's slot; NIL means that p is not among the first u entries. */
  method Search(tmp: array<Card16>, pCI: seq<CharInfo>, hash: Hash, u: nat, modulus: nat,
      p: CharInfo) returns (i: Card16)
    requires Table(tmp[..], pCI, hash, u, modulus)
    ensures i != NIL ==> i < u && pCI[Uniq(tmp[..], |pCI|, u)[i]] == p
    ensures i == NIL ==> NotFrom(pCI, Uniq(tmp[..], |pCI|, u), p, 0)
  {
    hide Slot, SlotsOf, Chained, NotFrom;
    var n := |pCI|;
    ghost var heads, nexts, uniq := Heads(tmp[..], n, modulus), Nexts(tmp[..], n, u), Uniq(tmp[..], n, u);
    SearchStarts(pCI, hash, heads, nexts, uniq, p);
    i := tmp[3 * n + Slot(hash, p, modulus)];
    assert i == heads[Slot(hash, p, modulus)];
    while i != NIL
      invariant Searching(pCI, hash, modulus, uniq, p, i)
      decreases if i == NIL then 0 else i + 1
    {
      assert tmp[n + i] == uniq[i];
      var j := tmp[n + i];
      if pCI[j] == p {
        return;
      }
      SearchGoesOn(pCI, hash, heads, nexts, uniq, p, i);
      assert tmp[2 * n + i] == nexts[i];
      i := tmp[2 * n + i];
    }
  }

  /** The modulus after the table has been found too small. */
  function Grown(modulus: nat, n: nat): (m: nat)
    ensures 0 < m <= n + 1
  {
    if 2 * modulus + 1 > n + 1 then n + 1 else 2 * modulus + 1
  }

  /** There are at most about half as many entries as chains, or as many chains as there is room for. */
  predicate Roomy(modulus: nat, u: nat, n: nat) {
    modulus == n + 1 || 2 * u < modulus + 2
  }

  lemma CompressedOld(pCI: seq<CharInfo>, n: nat, index: seq<Card16>, uniq: seq<Card16>, i: Card16)
    requires n < |pCI| && Compressed(pCI, n, index, uniq) && i < |uniq| && pCI[uniq[i]] == pCI[n]
    ensures Compressed(pCI, n + 1, index + [i], uniq)
  {
  }

  lemma CompressedNew(pCI: seq<CharInfo>, n: nat, index: seq<Card16>, uniq: seq<Card16>)
    requires n < |pCI| <= 0x1_0000 && Compressed(pCI, n, index, uniq) && |uniq| <= n
    requires forall e :: 0 <= e < |uniq| ==> pCI[uniq[e]] != pCI[n]
    ensures Compressed(pCI, n + 1, index + [|uniq|], uniq + [n])
  {
    var index', uniq' := index + [|uniq|], uniq + [n];
    forall j | 0 <= j < n ensures pCI[j] != pCI[n] {
      assert pCI[uniq[index[j]]] == pCI[j];
    }
  }

  /** The room for a new entry: the table is rebuilt first if there are too many entries for it. */
  method MakeRoom(tmp: array<Card16>, pCI: seq<CharInfo>, hash: Hash, u: nat, modulus: nat) returns (m: nat)
    requires |pCI| <= 0x1_0000 && u < |pCI| && Table(tmp[..], pCI, hash, u, modulus) && Roomy(modulus, u, |pCI|)
    modifies tmp
    ensures Table(tmp[..], pCI, hash, u, m) && (m == |pCI| + 1 || 2 * u < m)
    ensures tmp[..2 * |pCI|] == old(tmp[..2 * |pCI|])
  {
    m := modulus;
    if modulus <= 2 * u && modulus < |pCI| + 1 {
      m := Grown(modulus, |pCI|);
      Rehash(tmp, pCI, hash, u, m);
    }
  }

  /** The array after a new entry has been linked in front of its chain and entered in both index tables. */
  ghost function Added(t: seq<Card16>, n: nat, u: nat, h: nat, next: nat): seq<Card16>
    requires |t| == 4 * n + 1 && u <= next < n <= 0x1_0000 && h <= n
  {
    t[2 * n + u := t[3 * n + h]][3 * n + h := u][n + u := next][next := u]
  }

  /** What a new entry changes in the parts of the array. */
  lemma AddedParts(t: seq<Card16>, n: nat, u: nat, modulus: nat, h: nat, next: nat)
    requires Laid(t, n, u, modulus) && u <= next < n <= 0x1_0000 && h < modulus
    ensures var t' := Added(t, n, u, h, next);
      && Uniq(t', n, u + 1) == Uniq(t, n, u) + [next]
      && Heads(t', n, modulus) == Heads(t, n, modulus)[h := u]
      && Nexts(t', n, u + 1) == Nexts(t, n, u) + [Heads(t, n, modulus)[h]]
  {
  }

  lemma AddedTable(t: seq<Card16>, pCI: seq<CharInfo>, hash: Hash, u: nat, modulus: nat, next: nat)
    requires u <= next && next + 1 < |pCI| <= 0x1_0000 && Table(t, pCI, hash, u, modulus)
    ensures Table(Added(t, |pCI|, u, Slot(hash, pCI[next], modulus), next), pCI, hash, u + 1, modulus)
  {
    hide Chains;
    var n := |pCI|;
    var h := Slot(hash, pCI[next], modulus);
    var heads, nexts, uniq := Heads(t, n, modulus), Nexts(t, n, u), Uniq(t, n, u);
    LinkedChains(pCI, hash, heads, nexts, uniq, next);
    AddedParts(t, n, u, modulus, h, next);
    var t' := Added(t, n, u, h, next);
    var heads', nexts', uniq' := Heads(t', n, modulus), Nexts(t', n, u + 1), Uniq(t', n, u + 1);
    assert Chains(pCI, hash, heads', nexts', uniq');
    PartsTable(t', pCI, hash, u + 1, modulus, heads', nexts', uniq');
  }

  /** What a new entry changes in the two index tables. */
  lemma AddedIndices(t: seq<Card16>, n: nat, u: nat, h: nat, next: nat)
    requires |t| == 4 * n + 1 && u <= next < n <= 0x1_0000 && h <= n
    ensures var t' := Added(t, n, u, h, next);
      && |t'| == |t| && t'[..next + 1] == t[..next] + [u] && Uniq(t', n, u + 1) == Uniq(t, n, u) + [next]
  {
  }

  /** A duplicate: only its place in the first index table is set. */
  lemma FoundTable(t: seq<Card16>, pCI: seq<CharInfo>, hash: Hash, u: nat, modulus: nat, next: nat, i: Card16)
    requires Table(t, pCI, hash, u, modulus) && next < |pCI|
    ensures var t' := t[next := i];
      && Table(t', pCI, hash, u, modulus) && t'[..next + 1] == t[..next] + [i]
      && Uniq(t', |pCI|, u) == Uniq(t, |pCI|, u)
  {
    var n := |pCI|;
    var t': seq<Card16> := t[next := i];
    assert Uniq(t', n, u) == Uniq(t, n, u) && Heads(t', n, modulus) == Heads(t, n, modulus);
    assert Nexts(t', n, u) == Nexts(t, n, u);
  }

  /** A new entry. */
  method AddEntry(tmp: array<Card16>, n: nat, u: nat, h: nat, next: nat)
    requires tmp.Length == 4 * n + 1 && u <= next < n <= 0x1_0000 && h <= n
    modifies tmp
    ensures tmp[..] == Added(old(tmp[..]), n, u, h, next)
  {
    Link(tmp, u, n, h);
    tmp[n + u] := next;
    tmp[next] := Truncate(u);
  }

  lemma SameFront(t: seq<Card16>, t1: seq<Card16>, n: nat, u: nat, next: nat)
    requires |t| == |t1| == 4 * n + 1 && u <= n && next <= n && t1[..2 * n] == t[..2 * n]
    ensures t1[..next] == t[..next] && Uniq(t1, n, u) == Uniq(t, n, u)
  {
    assert t1[..next] == t1[..2 * n][..next];
    assert t[..next] == t[..2 * n][..next];
    assert Uniq(t1, n, u) == t1[..2 * n][n..n + u];
    assert Uniq(t, n, u) == t[..2 * n][n..n + u];
  }

  /** The tables after the first `next` metrics; once the last is in place the chains are not needed any more. */
  ghost predicate Progress(t: seq<Card16>, pCI: seq<CharInfo>, hash: Hash, u: nat, modulus: nat, next: nat) {
    && |t| == 4 * |pCI| + 1 && u <= next <= |pCI|
    && Compressed(pCI, next, t[..next], Uniq(t, |pCI|, u))
    && (next < |pCI| ==> Table(t, pCI, hash, u, modulus))
  }

  lemma FoundProgress(t: seq<Card16>, pCI: seq<CharInfo>, hash: Hash, u: nat, modulus: nat, next: nat, i: Card16)
    requires Progress(t, pCI, hash, u, modulus, next) && next < |pCI|
    requires i < u && Uniq(t, |pCI|, u)[i] < |pCI| && pCI[Uniq(t, |pCI|, u)[i]] == pCI[next]
    ensures Progress(t[next := i], pCI, hash, u, modulus, next + 1)
  {
    FoundTable(t, pCI, hash, u, modulus, next, i);
    CompressedOld(pCI, next, t[..next], Uniq(t, |pCI|, u), i);
  }

  lemma NewProgress(t: seq<Card16>, pCI: seq<CharInfo>, hash: Hash, u: nat, modulus: nat, next: nat)
    requires |pCI| <= 0x1_0000 && Progress(t, pCI, hash, u, modulus, next) && next < |pCI|
    requires NotFrom(pCI, Uniq(t, |pCI|, u), pCI[next], 0)
    ensures Progress(Added(t, |pCI|, u, Slot(hash, pCI[next], modulus), next), pCI, hash, u + 1, modulus, next + 1)
  {
    AddedIndices(t, |pCI|, u, Slot(hash, pCI[next], modulus), next);
    CompressedNew(pCI, next, t[..next], Uniq(t, |pCI|, u));
    if next + 1 < |pCI| {
      AddedTable(t, pCI, hash, u, modulus, next);
    }
  }

  /** One round of the loop: metric `next` is looked up, and entered if it is new. */
  method PlaceMetric(tmp: array<Card16>, pCI: seq<CharInfo>, hash: Hash, u: nat, modulus: nat, next: nat)
    returns (u': nat, modulus': nat)
    requires |pCI| <= 0x1_0000 && next < |pCI| && Progress(tmp[..], pCI, hash, u, modulus, next)
    requires Roomy(modulus, u, |pCI|)
    modifies tmp
    ensures Progress(tmp[..], pCI, hash, u', modulus', next + 1) && Roomy(modulus', u', |pCI|)
  {
    u', modulus' := u, modulus;
    var i := Search(tmp, pCI, hash, u, modulus, pCI[next]);
    if i != NIL {
      FoundProgress(tmp[..], pCI, hash, u, modulus, next, i);
      tmp[next] := i;
      assert tmp[..] == old(tmp[..])[next := i];
    } else {
      modulus' := MakeRoom(tmp, pCI, hash, u, modulus);
      SameFront(old(tmp[..]), tmp[..], |pCI|, u, next);
      NewProgress(tmp[..], pCI, hash, u, modulus', next);
      AddEntry(tmp, |pCI|, u, Slot(hash, pCI[next], modulus'), next);
      u' := u + 1;
    }
  }

  /**
   * Removes the duplicates of pCI: the first quarter of tmp is pIndex2UniqIndex, the second
   * pUniqIndex2Index, the third pUniqIndex2NextUniqIndex, and the rest pHash2UniqIndex.
   */
  method RemoveDuplicates(pCI: seq<CharInfo>, hash: Hash) returns (tmp: array<Card16>, nUniq: nat)
    requires 0 < |pCI| <= 0x1_0000
    ensures tmp.Length == 4 * |pCI| + 1 && nUniq <= |pCI|
    ensures Compressed(pCI, |pCI|, tmp[..|pCI|], Uniq(tmp[..], |pCI|, nUniq))
  {
    var n := |pCI|;
    var modulus: nat := if 67 > n + 1 then n + 1 else 67;
    tmp := new Card16[4 * n + 1];
    ClearHeads(tmp, n, modulus);
    EmptyTable(tmp[..], pCI, hash, modulus);
    nUniq := 0;
    for next := 0 to n
      invariant fresh(tmp) && Progress(tmp[..], pCI, hash, nUniq, modulus, next) && Roomy(modulus, nUniq, n)
    {
      nUniq, modulus := PlaceMetric(tmp, pCI, hash, nUniq, modulus, next);
    }
    assert tmp[..][..n] == tmp[..n];
  }

  // ----- the reply -----

  /** The bytes reserved in the reply for the metrics (12 bytes each) and, padded to an even number, the indices. */
  function BodyLength(nCharInfos: nat, nUniq: nat): nat {
    nUniq * 12 + (nCharInfos + 1) / 2 * 2 * 2
  }

  /** Just the bytes that are needed, in units of four */
  lemma BodyHolds(nCharInfos: nat, nUniq: nat)
    ensures var length := BodyLength(nCharInfos, nUniq);
            length % 4 == 0 && 12 * nUniq + 2 * nCharInfos <= length < 12 * nUniq + 2 * nCharInfos + 4
  {
    var pairs := Pairs(nCharInfos);
    InFours(3 * nUniq + pairs, BodyLength(nCharInfos, nUniq));
  }

  lemma Pairs(n: nat) returns (pairs: nat)
    ensures pairs == (n + 1) / 2 && n <= 2 * pairs <= n + 1
  {
    pairs := (n + 1) / 2;
  }

  lemma InFours(k: nat, x: nat)
    requires x == 4 * k
    ensures x % 4 == 0
  {
  }

  /** The metrics and indices written into the reply; the client recovers every metric from them. */
  method AssembleReply(pCI: seq<CharInfo>, tmp: array<Card16>, nUniq: nat)
    returns (infos: seq<CharInfo>, indices: seq<Card16>)
    requires tmp.Length == 4 * |pCI| + 1 && nUniq <= |pCI|
    requires Compressed(pCI, |pCI|, tmp[..|pCI|], Uniq(tmp[..], |pCI|, nUniq))
    ensures infos == Distinct(pCI)
    ensures (forall j :: 0 <= j < |indices| ==> indices[j] < |infos|) && Expand(infos, indices) == pCI
    ensures var length := BodyLength(|pCI|, nUniq);
            length % 4 == 0 && 12 * |infos| + 2 * |indices| <= length < 12 * |infos| + 2 * |indices| + 4
  {
    hide BodyLength;
    BodyHolds(|pCI|, nUniq);
    var n := |pCI|;
    ghost var uniq := Uniq(tmp[..], n, nUniq);
    infos, indices := [], [];
    for i := 0 to nUniq
      invariant infos == Pick(pCI, uniq)[..i]
    {
      assert tmp[n + i] == uniq[i];
      infos := infos + [pCI[tmp[n + i]]];
    }
    for j := 0 to n
      invariant indices == tmp[..j]
    {
      indices := indices + [tmp[j]];
    }
    assert infos == Pick(pCI, uniq);
    UniqueTableIsDistinct(pCI, n, tmp[..n], uniq);
    assert pCI[..n] == pCI;
    ExpandInverts(pCI, tmp[..n], uniq);
  }
}
