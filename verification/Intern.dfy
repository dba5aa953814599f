/** Hash-consed attributes.  An attribute block and the AS path and community lists it points
    to are shared and reference counted on two levels; memory is a map from addresses to
    cells, so that a freed address can be handed out again. */
module Intern {
  import opened Options
  import AsPath

  type Ptr = nat

  /** The shared parts an attribute block points to. */
  datatype Kind = AsPathPart | CommunityPart | ExtCommunityPart | LargeCommunityPart

  datatype Value = PathValue(path: AsPath.Path) | ListValue(octets: seq<int>)

  datatype Cell = Cell(value: Value, refcnt: nat)

  /** One kind of shared part: its cells, the hash table over them, and the references held by
      the rest of the daemon, one entry for each. */
  datatype Pool = Pool(cells: map<Ptr, Cell>, hash: set<Ptr>, held: multiset<Ptr>)

  datatype Extra = Extra(aggregatorAs: int, aggregatorAddr: int, weight: int, tag: int,
                         mpLen: int, mpGlobal: int, mpLocal: int, mpGlobalIn: int,
                         originator: int, ecommunity: Option<Ptr>, lcommunity: Option<Ptr>)

  datatype Attr = Attr(flag: int, origin: int, nexthop: int, med: int, localPref: int,
                       path: Option<Ptr>, community: Option<Ptr>, extra: Option<Extra>)

  datatype AttrCell = AttrCell(attr: Attr, refcnt: nat)

  datatype Pools = Pools(path: Pool, community: Pool, ecommunity: Pool, lcommunity: Pool) {
    function At(k: Kind): Pool {
      match k
      case AsPathPart => path
      case CommunityPart => community
      case ExtCommunityPart => ecommunity
      case LargeCommunityPart => lcommunity
    }

    function With(k: Kind, pool: Pool): (r: Pools)
      ensures r.At(k) == pool && forall j :: j != k ==> r.At(j) == At(j)
    {
      match k
      case AsPathPart => this.(path := pool)
      case CommunityPart => this.(community := pool)
      case ExtCommunityPart => this.(ecommunity := pool)
      case LargeCommunityPart => this.(lcommunity := pool)
    }
  }

  datatype State = State(pools: Pools, attrs: map<Ptr, AttrCell>, held: multiset<Ptr>)

  // ----- one pool

  /** `uses` are the references from attribute blocks. */
  ghost predicate PoolInv(pool: Pool, uses: Ptr -> nat) {
    && (forall p :: p in pool.hash ==> p in pool.cells)
    && (forall p :: p in pool.cells ==> pool.cells[p].refcnt == pool.held[p] + uses(p))
    && (forall p :: p in pool.cells ==> (p in pool.hash <==> pool.cells[p].refcnt > 0))
    && (forall p :: p in pool.held || uses(p) > 0 ==> p in pool.cells)
    && (forall p, q :: p in pool.hash && q in pool.hash && pool.cells[p].value == pool.cells[q].value ==> p == q)
  }

  ghost predicate Hits(pool: Pool, v: Value, p: Ptr) {
    p in pool.hash && p in pool.cells && pool.cells[p].value == v
  }

  ghost function Found(pool: Pool, v: Value): (r: Option<Ptr>)
    ensures r.None? ==> forall p :: !Hits(pool, v, p)
    ensures r.Some? ==> Hits(pool, v, r.value)
  {
    if p :| Hits(pool, v, p) then Some(p) else None
  }

  ghost predicate Live(pool: Pool, o: Option<Ptr>) {
    o.Some? ==> o.value in pool.cells
  }

  /** Every part of the block can be referenced: the daemon holds a reference to it. */
  ghost predicate Holds(pool: Pool, o: Option<Ptr>) {
    o.Some? ==> o.value in pool.held && o.value in pool.hash
  }

  function Bag(o: Option<Ptr>): multiset<Ptr> {
    match o
    case None => multiset{}
    case Some(p) => multiset{p}
  }

  /** A part just built by its owner: allocated, not interned. */
  function Allocate(pool: Pool, p: Ptr, v: Value): Pool {
    pool.(cells := pool.cells[p := Cell(v, 0)])
  }

  function AddRef(pool: Pool, p: Ptr): Pool
    requires p in pool.cells
  {
    pool.(cells := pool.cells[p := Cell(pool.cells[p].value, pool.cells[p].refcnt + 1)],
          held := pool.held + multiset{p})
  }

  /** Interning an uninterned part: an equal one that is already there wins and the argument
      is freed. */
  ghost function InternPart(pool: Pool, p: Ptr): (r: (Pool, Ptr))
    requires p in pool.cells
    ensures r.1 in r.0.cells
  {
    match Found(pool, pool.cells[p].value)
    case Some(q) =>
      var kept := if q != p then pool.(cells := pool.cells - {p}) else pool;
      (AddRef(kept, q), q)
    case None => (AddRef(pool.(hash := pool.hash + {p}), p), p)
  }

  /** What interning an attribute block does to each part it points to. */
  ghost function TakePart(pool: Pool, p: Ptr): (r: (Pool, Ptr))
    requires p in pool.cells
    ensures r.1 in r.0.cells
  {
    if pool.cells[p].refcnt == 0 then InternPart(pool, p) else (AddRef(pool, p), p)
  }

  /** Dropping one reference; the last one frees the part. */
  function DropPart(pool: Pool, p: Ptr): Pool
    requires p in pool.cells
  {
    var n := pool.cells[p].refcnt;
    var m := if n > 0 then n - 1 else 0;
    if m == 0
    then Pool(pool.cells - {p}, pool.hash - {p}, pool.held - multiset{p})
    else Pool(pool.cells[p := Cell(pool.cells[p].value, m)], pool.hash, pool.held - multiset{p})
  }

  lemma AllocateInv(pool: Pool, p: Ptr, v: Value, uses: Ptr -> nat)
    requires PoolInv(pool, uses) && p !in pool.cells
    ensures PoolInv(Allocate(pool, p, v), uses)
  {
    assert p !in pool.hash && pool.held[p] == 0 && uses(p) == 0;
  }

  lemma FreeLooseInv(pool: Pool, p: Ptr, uses: Ptr -> nat)
    requires PoolInv(pool, uses) && p in pool.cells && p !in pool.hash
    ensures PoolInv(pool.(cells := pool.cells - {p}), uses)
  {
    assert p !in pool.held && uses(p) == 0;
  }

  lemma AddRefInv(pool: Pool, p: Ptr, uses: Ptr -> nat)
    requires PoolInv(pool, uses) && p in pool.hash
    ensures PoolInv(AddRef(pool, p), uses)
  {
    var after := AddRef(pool, p);
    assert forall q :: q in after.held ==> q == p || q in pool.held;
    assert forall q :: q in after.cells ==> after.cells[q].value == pool.cells[q].value;
  }

  lemma FirstRefInv(pool: Pool, p: Ptr, uses: Ptr -> nat)
    requires PoolInv(pool, uses) && p in pool.cells && p !in pool.hash
    requires forall q :: !Hits(pool, pool.cells[p].value, q)
    ensures PoolInv(AddRef(pool.(hash := pool.hash + {p}), p), uses)
  {
    var after := AddRef(pool.(hash := pool.hash + {p}), p);
    assert forall q :: q in after.held ==> q == p || q in pool.held;
    assert forall q :: q in after.cells ==> after.cells[q].value == pool.cells[q].value;
    assert forall q :: q in pool.hash ==> pool.cells[q].value != pool.cells[p].value by {
      forall q | q in pool.hash ensures pool.cells[q].value != pool.cells[p].value {
        assert !Hits(pool, pool.cells[p].value, q);
      }
    }
  }

  lemma InternPartInv(pool: Pool, p: Ptr, uses: Ptr -> nat)
    requires PoolInv(pool, uses) && p in pool.cells && pool.cells[p].refcnt == 0
    ensures var (after, q) := InternPart(pool, p);
      PoolInv(after, uses) && q in after.hash && q in after.cells && after.cells[q].value == pool.cells[p].value
      && q in after.held
  {
    match Found(pool, pool.cells[p].value)
    case Some(q) =>
      FreeLooseInv(pool, p, uses);
      AddRefInv(pool.(cells := pool.cells - {p}), q, uses);
    case None =>
      FirstRefInv(pool, p, uses);
  }

  lemma TakePartInv(pool: Pool, p: Ptr, uses: Ptr -> nat)
    requires PoolInv(pool, uses) && p in pool.cells
    ensures var (after, q) := TakePart(pool, p);
      PoolInv(after, uses) && q in after.hash && q in after.cells && after.cells[q].value == pool.cells[p].value
      && q in after.held
  {
    hide PoolInv;
    if pool.cells[p].refcnt == 0 {
      InternPartInv(pool, p, uses);
    } else {
      CountedIsHashed(pool, p, uses);
      AddRefInv(pool, p, uses);
    }
  }

  lemma CountedIsHashed(pool: Pool, p: Ptr, uses: Ptr -> nat)
    requires PoolInv(pool, uses) && p in pool.cells && pool.cells[p].refcnt > 0
    ensures p in pool.hash
  {
  }

  lemma DropLastInv(pool: Pool, p: Ptr, uses: Ptr -> nat)
    requires PoolInv(pool, uses) && p in pool.held && pool.cells[p].refcnt == 1
    ensures PoolInv(Pool(pool.cells - {p}, pool.hash - {p}, pool.held - multiset{p}), uses)
  {
    assert pool.held[p] == 1 && uses(p) == 0;
    var held := pool.held - multiset{p};
    assert p !in held && forall q :: q != p ==> held[q] == pool.held[q];
  }

  lemma DropOneInv(pool: Pool, p: Ptr, uses: Ptr -> nat)
    requires PoolInv(pool, uses) && p in pool.held && pool.cells[p].refcnt > 1
    ensures var fewer := pool.cells[p := Cell(pool.cells[p].value, pool.cells[p].refcnt - 1)];
      PoolInv(Pool(fewer, pool.hash, pool.held - multiset{p}), uses)
  {
    var fewer := pool.cells[p := Cell(pool.cells[p].value, pool.cells[p].refcnt - 1)];
    var held := pool.held - multiset{p};
    assert forall q :: held[q] == if q == p then pool.held[q] - 1 else pool.held[q];
    assert forall q :: q in pool.cells ==> fewer[q].value == pool.cells[q].value;
  }

  lemma DropPartInv(pool: Pool, p: Ptr, uses: Ptr -> nat)
    requires PoolInv(pool, uses) && p in pool.held
    ensures PoolInv(DropPart(pool, p), uses)
  {
    if pool.cells[p].refcnt == 1 {
      DropLastInv(pool, p, uses);
    } else {
      DropOneInv(pool, p, uses);
    }
  }

  /** Taking a further reference to an interned part and dropping it changes nothing. */
  lemma DropUndoesTake(pool: Pool, p: Ptr, uses: Ptr -> nat)
    requires PoolInv(pool, uses) && p in pool.hash
    ensures DropPart(TakePart(pool, p).0, p) == pool
  {
    assert pool.cells[p].refcnt > 0;
    hide PoolInv;
    var more := AddRef(pool, p);
    assert TakePart(pool, p).0 == more && more.cells[p].refcnt == pool.cells[p].refcnt + 1;
    assert more.held - multiset{p} == pool.held;
    assert more.cells[p := pool.cells[p]] == pool.cells;
  }

  /** Moving a reference from the daemon to an attribute block or back. */
  lemma Hand(pool: Pool, o: Option<Ptr>, uses: Ptr -> nat, more: Ptr -> nat)
    requires PoolInv(pool, uses) && Holds(pool, o)
    requires forall p :: more(p) == uses(p) + Bag(o)[p]
    ensures PoolInv(pool.(held := pool.held - Bag(o)), more)
  {
    assert forall p :: (pool.held - Bag(o))[p] == pool.held[p] - Bag(o)[p];
  }

  lemma HandBack(pool: Pool, o: Option<Ptr>, uses: Ptr -> nat, more: Ptr -> nat)
    requires PoolInv(pool, more)
    requires forall p :: more(p) == uses(p) + Bag(o)[p]
    ensures PoolInv(pool.(held := pool.held + Bag(o)), uses) && Live(pool, o)
  {
    if o.Some? { assert more(o.value) > 0; }
    var held := pool.held + Bag(o);
    assert forall p :: held[p] == pool.held[p] + Bag(o)[p];
    assert forall p :: p in held ==> p in pool.held || Bag(o)[p] > 0;
  }

  // ----- attribute blocks

  function PartOf(attr: Attr, k: Kind): Option<Ptr> {
    match k
    case AsPathPart => attr.path
    case CommunityPart => attr.community
    case ExtCommunityPart => if attr.extra.Some? then attr.extra.value.ecommunity else None
    case LargeCommunityPart => if attr.extra.Some? then attr.extra.value.lcommunity else None
  }

  /** The block without its parts. */
  function Plain(attr: Attr): Attr {
    var bare := attr.(path := None, community := None);
    if attr.extra.None? then bare
    else bare.(extra := Some(attr.extra.value.(ecommunity := None, lcommunity := None)))
  }

  /** The hash table's comparison: parts are compared by pointer. */
  predicate AttrHashCmp(a: Attr, b: Attr) {
    && a.flag == b.flag && a.origin == b.origin && a.nexthop == b.nexthop
    && a.path == b.path && a.community == b.community
    && a.med == b.med && a.localPref == b.localPref
    && if a.extra.Some? && b.extra.Some? && SameExtra(a.extra.value, b.extra.value) then true
       else !(a.extra.Some? || b.extra.Some?)
  }

  predicate SameExtra(x: Extra, y: Extra) {
    && x.aggregatorAs == y.aggregatorAs && x.aggregatorAddr == y.aggregatorAddr
    && x.weight == y.weight && x.tag == y.tag && x.mpLen == y.mpLen
    && x.mpGlobal == y.mpGlobal && x.mpLocal == y.mpLocal && x.mpGlobalIn == y.mpGlobalIn
    && x.ecommunity == y.ecommunity && x.lcommunity == y.lcommunity
    && x.originator == y.originator
  }

  lemma CmpIsEquality(a: Attr, b: Attr)
    ensures AttrHashCmp(a, b) <==> a == b
  {
  }

  /** The references the blocks of `attrs` have on the part at `p`: each block that points to
      it counts its own reference count. */
  ghost function Uses(attrs: map<Ptr, AttrCell>, k: Kind, p: Ptr): nat {
    if attrs == map[] then 0
    else var a :| a in attrs; Uses(attrs - {a}, k, p) + Share(attrs[a], k, p)
  }

  ghost function Share(cell: AttrCell, k: Kind, p: Ptr): nat {
    if PartOf(cell.attr, k) == Some(p) then cell.refcnt else 0
  }

  ghost function UsesOf(attrs: map<Ptr, AttrCell>, k: Kind): Ptr -> nat {
    p => Uses(attrs, k, p)
  }

  lemma {:induction false} UsesSplit(attrs: map<Ptr, AttrCell>, a: Ptr, k: Kind, p: Ptr)
    requires a in attrs
    ensures Uses(attrs, k, p) == Uses(attrs - {a}, k, p) + Share(attrs[a], k, p)
    decreases |attrs|
  {
    var b :| b in attrs && Uses(attrs, k, p) == Uses(attrs - {b}, k, p) + Share(attrs[b], k, p);
    hide *;
    if a != b {
      var fewer, without := attrs - {b}, attrs - {a};
      UsesSplit(fewer, a, k, p);
      UsesSplit(without, b, k, p);
      assert fewer - {a} == without - {b};
    }
  }

  /** The references the daemon holds and those of the blocks add up to the counts of every
      pool; equal values, and equal blocks, are stored once. */
  ghost predicate Inv(s: State) {
    PoolsInv(s.pools, s.attrs) && BlocksInv(s.attrs, s.held)
  }

  ghost predicate PoolsInv(pools: Pools, attrs: map<Ptr, AttrCell>) {
    forall k :: PoolInv(pools.At(k), UsesOf(attrs, k))
  }

  ghost predicate BlocksInv(attrs: map<Ptr, AttrCell>, held: multiset<Ptr>) {
    && (forall a :: a in attrs ==> attrs[a].refcnt == held[a] > 0)
    && (forall a :: a in held ==> a in attrs)
    && (forall a, b :: a in attrs && b in attrs && attrs[a].attr == attrs[b].attr ==> a == b)
  }

  // ----- interning and uninterning a block

  ghost function TakeOpt(pool: Pool, o: Option<Ptr>): (Pool, Option<Ptr>)
    requires Live(pool, o)
  {
    match o
    case None => (pool, None)
    case Some(p) => var (after, q) := TakePart(pool, p); (after, Some(q))
  }

  ghost function DropOpt(pool: Pool, o: Option<Ptr>): Pool
    requires Live(pool, o)
  {
    match o
    case None => pool
    case Some(p) => DropPart(pool, p)
  }

  ghost predicate AllLive(pools: Pools, attr: Attr) {
    forall k :: Live(pools.At(k), PartOf(attr, k))
  }

  /** After the first half of interning: the caller holds a reference to each part. */
  ghost function TakeParts(pools: Pools, attr: Attr): (r: Pools)
    requires AllLive(pools, attr)
    ensures forall k :: r.At(k) == TakeOpt(pools.At(k), PartOf(attr, k)).0
  {
    Pools(TakeOpt(pools.At(AsPathPart), PartOf(attr, AsPathPart)).0,
          TakeOpt(pools.At(CommunityPart), PartOf(attr, CommunityPart)).0,
          TakeOpt(pools.At(ExtCommunityPart), PartOf(attr, ExtCommunityPart)).0,
          TakeOpt(pools.At(LargeCommunityPart), PartOf(attr, LargeCommunityPart)).0)
  }

  ghost function Repointed(pools: Pools, attr: Attr): (r: Attr)
    requires AllLive(pools, attr)
    ensures forall k :: PartOf(r, k) == TakeOpt(pools.At(k), PartOf(attr, k)).1
    ensures Plain(r) == Plain(attr)
  {
    var rest := attr.(path := TakeOpt(pools.At(AsPathPart), PartOf(attr, AsPathPart)).1,
                      community := TakeOpt(pools.At(CommunityPart), PartOf(attr, CommunityPart)).1);
    if attr.extra.None? then rest
    else rest.(extra := Some(attr.extra.value.(
      ecommunity := TakeOpt(pools.At(ExtCommunityPart), PartOf(attr, ExtCommunityPart)).1,
      lcommunity := TakeOpt(pools.At(LargeCommunityPart), PartOf(attr, LargeCommunityPart)).1)))
  }

  ghost function DropParts(pools: Pools, attr: Attr): Pools
    requires AllLive(pools, attr)
  {
    Pools(DropOpt(pools.At(AsPathPart), PartOf(attr, AsPathPart)),
          DropOpt(pools.At(CommunityPart), PartOf(attr, CommunityPart)),
          DropOpt(pools.At(ExtCommunityPart), PartOf(attr, ExtCommunityPart)),
          DropOpt(pools.At(LargeCommunityPart), PartOf(attr, LargeCommunityPart)))
  }

  function HandOut(pool: Pool, o: Option<Ptr>): Pool {
    pool.(held := pool.held - Bag(o))
  }

  function HandIn(pool: Pool, o: Option<Ptr>): Pool {
    pool.(held := pool.held + Bag(o))
  }

  function HandOver(pools: Pools, attr: Attr): (r: Pools)
    ensures forall k :: r.At(k) == HandOut(pools.At(k), PartOf(attr, k))
  {
    Pools(HandOut(pools.At(AsPathPart), PartOf(attr, AsPathPart)),
          HandOut(pools.At(CommunityPart), PartOf(attr, CommunityPart)),
          HandOut(pools.At(ExtCommunityPart), PartOf(attr, ExtCommunityPart)),
          HandOut(pools.At(LargeCommunityPart), PartOf(attr, LargeCommunityPart)))
  }

  function TakeBack(pools: Pools, attr: Attr): (r: Pools)
    ensures forall k :: r.At(k) == HandIn(pools.At(k), PartOf(attr, k))
  {
    Pools(HandIn(pools.At(AsPathPart), PartOf(attr, AsPathPart)),
          HandIn(pools.At(CommunityPart), PartOf(attr, CommunityPart)),
          HandIn(pools.At(ExtCommunityPart), PartOf(attr, ExtCommunityPart)),
          HandIn(pools.At(LargeCommunityPart), PartOf(attr, LargeCommunityPart)))
  }

  ghost predicate HitsAttr(attrs: map<Ptr, AttrCell>, attr: Attr, a: Ptr) {
    a in attrs && AttrHashCmp(attrs[a].attr, attr)
  }

  ghost function FoundAttr(attrs: map<Ptr, AttrCell>, attr: Attr): (r: Option<Ptr>)
    ensures r.None? ==> forall a :: !HitsAttr(attrs, attr, a)
    ensures r.Some? ==> HitsAttr(attrs, attr, r.value)
  {
    if a :| HitsAttr(attrs, attr, a) then Some(a) else None
  }

  /** The second half of interning: find the block or store it at `addr`. */
  ghost function GetAttr(s: State, attr: Attr, addr: Ptr): (State, Ptr) {
    var pools := HandOver(s.pools, attr);
    match FoundAttr(s.attrs, attr)
    case Some(a) =>
      (State(pools, s.attrs[a := AttrCell(s.attrs[a].attr, s.attrs[a].refcnt + 1)], s.held + multiset{a}), a)
    case None =>
      (State(pools, s.attrs[addr := AttrCell(attr, 1)], s.held + multiset{addr}), addr)
  }

  ghost function InternAttr(s: State, attr: Attr, addr: Ptr): (State, Ptr)
    requires AllLive(s.pools, attr)
  {
    GetAttr(s.(pools := TakeParts(s.pools, attr)), Repointed(s.pools, attr), addr)
  }

  /** The first half of uninterning: the references of the dropped one go to the caller. */
  function ReleaseAttr(s: State, a: Ptr): State
    requires a in s.attrs
  {
    var cell := s.attrs[a];
    var pools := TakeBack(s.pools, cell.attr);
    State(pools, Shrunk(s.attrs, a), s.held - multiset{a})
  }

  function Shrunk(attrs: map<Ptr, AttrCell>, a: Ptr): map<Ptr, AttrCell>
    requires a in attrs
  {
    var cell := attrs[a];
    if cell.refcnt <= 1 then attrs - {a} else attrs[a := AttrCell(cell.attr, cell.refcnt - 1)]
  }

  ghost function UninternAttr(s: State, a: Ptr): State
    requires a in s.attrs && AllLive(s.pools, s.attrs[a].attr)
  {
    var released := ReleaseAttr(s, a);
    released.(pools := DropParts(released.pools, s.attrs[a].attr))
  }

  ghost function ValueOf(pool: Pool, o: Option<Ptr>): Option<Value>
    requires Live(pool, o)
  {
    match o
    case None => None
    case Some(p) => Some(pool.cells[p].value)
  }

  /** What was interned stays, with its value. */
  ghost predicate Keeps(before: Pool, after: Pool) {
    forall p :: p in before.hash && p in before.cells ==>
      p in after.hash && p in after.cells && after.cells[p].value == before.cells[p].value
  }

  lemma TakeOptInv(pool: Pool, o: Option<Ptr>, uses: Ptr -> nat)
    requires PoolInv(pool, uses) && Live(pool, o)
    ensures var (after, q) := TakeOpt(pool, o);
      PoolInv(after, uses) && Holds(after, q) && Live(after, q) && ValueOf(after, q) == ValueOf(pool, o)
  {
    hide PoolInv;
    if o.Some? { TakePartInv(pool, o.value, uses); }
  }

  lemma TakeKeeps(pool: Pool, o: Option<Ptr>, uses: Ptr -> nat)
    requires PoolInv(pool, uses) && Live(pool, o)
    ensures Keeps(pool, TakeOpt(pool, o).0)
  {
  }

  lemma DropOptInv(pool: Pool, o: Option<Ptr>, uses: Ptr -> nat)
    requires PoolInv(pool, uses) && Live(pool, o) && (o.Some? ==> o.value in pool.held)
    ensures PoolInv(DropOpt(pool, o), uses)
  {
    if o.Some? { DropPartInv(pool, o.value, uses); }
  }

  lemma TakePartsInv(pools: Pools, attrs: map<Ptr, AttrCell>, attr: Attr)
    requires PoolsInv(pools, attrs) && AllLive(pools, attr)
    ensures PoolsInv(TakeParts(pools, attr), attrs)
    ensures forall k :: Holds(TakeParts(pools, attr).At(k), PartOf(Repointed(pools, attr), k))
  {
    var after := TakeParts(pools, attr);
    hide PoolInv, TakeOpt, TakeParts, Repointed, UsesOf, Holds, PartOf, Pools.At;
    forall k
      ensures PoolInv(after.At(k), UsesOf(attrs, k)) && Holds(after.At(k), PartOf(Repointed(pools, attr), k))
    {
      TakeOptInv(pools.At(k), PartOf(attr, k), UsesOf(attrs, k));
    }
  }

  /** One more reference to a block, or a first one. */
  lemma UsesGrow(attrs: map<Ptr, AttrCell>, a: Ptr, attr: Attr, n: nat, k: Kind)
    requires if a in attrs then attrs[a] == AttrCell(attr, n) else n == 0
    ensures forall p :: UsesOf(attrs[a := AttrCell(attr, n + 1)], k)(p) == UsesOf(attrs, k)(p) + Bag(PartOf(attr, k))[p]
  {
    var more := attrs[a := AttrCell(attr, n + 1)];
    assert more - {a} == attrs - {a};
    assert a !in attrs ==> attrs - {a} == attrs;
    forall p ensures Uses(more, k, p) == Uses(attrs, k, p) + Bag(PartOf(attr, k))[p] {
      UsesSplit(more, a, k, p);
      if a in attrs { UsesSplit(attrs, a, k, p); }
    }
  }

  lemma HandOverInv(pools: Pools, attrs: map<Ptr, AttrCell>, a: Ptr, attr: Attr, n: nat)
    requires PoolsInv(pools, attrs) && forall k :: Holds(pools.At(k), PartOf(attr, k))
    requires if a in attrs then attrs[a] == AttrCell(attr, n) else n == 0
    ensures PoolsInv(HandOver(pools, attr), attrs[a := AttrCell(attr, n + 1)])
  {
    var after, more := HandOver(pools, attr), attrs[a := AttrCell(attr, n + 1)];
    hide PoolInv, HandOver, UsesOf, Holds, PartOf, Pools.At;
    forall k ensures PoolInv(after.At(k), UsesOf(more, k)) {
      UsesGrow(attrs, a, attr, n, k);
      Hand(pools.At(k), PartOf(attr, k), UsesOf(attrs, k), UsesOf(more, k));
    }
  }

  /** The address a block is found or stored at, and its count before. */
  ghost function PlaceOf(attrs: map<Ptr, AttrCell>, attr: Attr, addr: Ptr): (r: (Ptr, nat))
    requires addr !in attrs
    ensures if r.0 in attrs then attrs[r.0] == AttrCell(attr, r.1) else r == (addr, 0)
    ensures r.0 !in attrs ==> forall b :: b in attrs ==> attrs[b].attr != attr
  {
    match FoundAttr(attrs, attr)
    case Some(a) => CmpIsEquality(attrs[a].attr, attr); (a, attrs[a].refcnt)
    case None =>
      assert forall b :: b in attrs ==> attrs[b].attr != attr by {
        forall b | b in attrs ensures attrs[b].attr != attr {
          assert !HitsAttr(attrs, attr, b);
        }
      }
      (addr, 0)
  }

  lemma GetAttrPlace(s: State, attr: Attr, addr: Ptr)
    requires addr !in s.attrs
    ensures var (a, n) := PlaceOf(s.attrs, attr, addr);
      GetAttr(s, attr, addr) == (State(HandOver(s.pools, attr), s.attrs[a := AttrCell(attr, n + 1)], s.held + multiset{a}), a)
  {
    hide HandOver;
  }

  lemma BlocksGrow(attrs: map<Ptr, AttrCell>, held: multiset<Ptr>, a: Ptr, attr: Attr, n: nat)
    requires BlocksInv(attrs, held)
    requires if a in attrs then attrs[a] == AttrCell(attr, n) else n == 0
    requires a !in attrs ==> forall b :: b in attrs ==> attrs[b].attr != attr
    ensures BlocksInv(attrs[a := AttrCell(attr, n + 1)], held + multiset{a})
  {
    var more := held + multiset{a};
    assert forall b :: more[b] == if b == a then held[b] + 1 else held[b];
    assert forall b :: b in more ==> b == a || b in held;
    assert a !in attrs ==> a !in held;
  }

  lemma GetAttrInv(s: State, attr: Attr, addr: Ptr)
    requires Inv(s) && addr !in s.attrs
    requires forall k :: Holds(s.pools.At(k), PartOf(attr, k))
    ensures Inv(GetAttr(s, attr, addr).0)
  {
    hide PoolsInv, BlocksInv, Holds, PlaceOf, PartOf, Pools.At, HandOver, GetAttr;
    GetAttrPlace(s, attr, addr);
    var (a, n) := PlaceOf(s.attrs, attr, addr);
    HandOverInv(s.pools, s.attrs, a, attr, n);
    BlocksGrow(s.attrs, s.held, a, attr, n);
  }

  lemma InternAttrInv(s: State, attr: Attr, addr: Ptr)
    requires Inv(s) && AllLive(s.pools, attr) && addr !in s.attrs
    ensures Inv(InternAttr(s, attr, addr).0)
  {
    hide PoolsInv, BlocksInv, Holds, PartOf, Pools.At, GetAttr, AllLive, TakeParts, Repointed;
    TakePartsInv(s.pools, s.attrs, attr);
    GetAttrInv(s.(pools := TakeParts(s.pools, attr)), Repointed(s.pools, attr), addr);
  }

  lemma UsesShrink(attrs: map<Ptr, AttrCell>, a: Ptr, k: Kind)
    requires a in attrs && attrs[a].refcnt > 0
    ensures forall p :: UsesOf(attrs, k)(p) == UsesOf(Shrunk(attrs, a), k)(p) + Bag(PartOf(attrs[a].attr, k))[p]
  {
    var cell := attrs[a];
    var after := Shrunk(attrs, a);
    assert after[a := cell] == attrs;
    hide UsesOf;
    UsesGrow(after, a, cell.attr, cell.refcnt - 1, k);
  }

  lemma TakeBackInv(pools: Pools, attrs: map<Ptr, AttrCell>, a: Ptr)
    requires PoolsInv(pools, attrs) && a in attrs && attrs[a].refcnt > 0
    ensures PoolsInv(TakeBack(pools, attrs[a].attr), Shrunk(attrs, a)) && AllLive(pools, attrs[a].attr)
  {
    var attr, fewer := attrs[a].attr, Shrunk(attrs, a);
    var after := TakeBack(pools, attr);
    hide PoolInv, TakeBack, UsesOf, PartOf, Pools.At, Shrunk;
    forall k ensures PoolInv(after.At(k), UsesOf(fewer, k)) && Live(pools.At(k), PartOf(attr, k)) {
      UsesShrink(attrs, a, k);
      HandBack(pools.At(k), PartOf(attr, k), UsesOf(fewer, k), UsesOf(attrs, k));
    }
  }

  lemma BlocksShrink(attrs: map<Ptr, AttrCell>, held: multiset<Ptr>, a: Ptr)
    requires BlocksInv(attrs, held) && a in held
    ensures BlocksInv(Shrunk(attrs, a), held - multiset{a})
  {
    var fewer := held - multiset{a};
    assert forall b :: fewer[b] == if b == a then held[b] - 1 else held[b];
    assert forall b :: b in fewer ==> b in held;
  }

  lemma ReleaseAttrInv(s: State, a: Ptr)
    requires Inv(s) && a in s.held
    ensures a in s.attrs && Inv(ReleaseAttr(s, a)) && AllLive(s.pools, s.attrs[a].attr)
  {
    hide PoolsInv, AllLive, TakeBack, Shrunk;
    TakeBackInv(s.pools, s.attrs, a);
    BlocksShrink(s.attrs, s.held, a);
  }

  lemma DropPartsAt(pools: Pools, attr: Attr, k: Kind)
    requires AllLive(pools, attr)
    ensures DropParts(pools, attr).At(k) == DropOpt(pools.At(k), PartOf(attr, k))
  {
    hide DropOpt;
  }

  lemma DropPartsInv(pools: Pools, attrs: map<Ptr, AttrCell>, attr: Attr)
    requires PoolsInv(pools, attrs) && AllLive(pools, attr)
    requires forall k :: PartOf(attr, k).Some? ==> PartOf(attr, k).value in pools.At(k).held
    ensures PoolsInv(DropParts(pools, attr), attrs)
  {
    var after := DropParts(pools, attr);
    hide PoolInv, DropOpt, UsesOf, DropParts, PartOf, Pools.At;
    forall k ensures PoolInv(after.At(k), UsesOf(attrs, k)) {
      DropPartsAt(pools, attr, k);
      DropOptInv(pools.At(k), PartOf(attr, k), UsesOf(attrs, k));
    }
  }

  lemma UninternAttrInv(s: State, a: Ptr)
    requires Inv(s) && a in s.held
    ensures a in s.attrs && AllLive(s.pools, s.attrs[a].attr) && Inv(UninternAttr(s, a))
  {
    ReleaseAttrInv(s, a);
    var released := ReleaseAttr(s, a);
    var attr := s.attrs[a].attr;
    assert released.pools == TakeBack(s.pools, attr);
    hide PoolsInv, BlocksInv, Shrunk, DropParts, ReleaseAttr, TakeBack, PartOf, Pools.At;
    DropPartsInv(released.pools, released.attrs, attr);
  }

  // ----- pointers stand for values

  /** A block with its parts followed to their values. */
  datatype Deep = Deep(plain: Attr, path: Option<Value>, community: Option<Value>,
                       ecommunity: Option<Value>, lcommunity: Option<Value>) {
    function At(k: Kind): Option<Value> {
      match k
      case AsPathPart => path
      case CommunityPart => community
      case ExtCommunityPart => ecommunity
      case LargeCommunityPart => lcommunity
    }
  }

  ghost function DeepOf(pools: Pools, attr: Attr): (r: Deep)
    requires AllLive(pools, attr)
    ensures r.plain == Plain(attr) && forall k :: r.At(k) == ValueOf(pools.At(k), PartOf(attr, k))
  {
    Deep(Plain(attr),
         ValueOf(pools.At(AsPathPart), PartOf(attr, AsPathPart)),
         ValueOf(pools.At(CommunityPart), PartOf(attr, CommunityPart)),
         ValueOf(pools.At(ExtCommunityPart), PartOf(attr, ExtCommunityPart)),
         ValueOf(pools.At(LargeCommunityPart), PartOf(attr, LargeCommunityPart)))
  }

  lemma SameDeep(x: Deep, y: Deep)
    requires x.plain == y.plain && forall k :: x.At(k) == y.At(k)
    ensures x == y
  {
    assert x.At(AsPathPart) == y.At(AsPathPart) && x.At(CommunityPart) == y.At(CommunityPart);
    assert x.At(ExtCommunityPart) == y.At(ExtCommunityPart) && x.At(LargeCommunityPart) == y.At(LargeCommunityPart);
  }

  lemma SameBlock(x: Attr, y: Attr)
    requires Plain(x) == Plain(y) && forall k :: PartOf(x, k) == PartOf(y, k)
    ensures x == y
  {
    assert PartOf(x, AsPathPart) == PartOf(y, AsPathPart) && PartOf(x, CommunityPart) == PartOf(y, CommunityPart);
    assert PartOf(x, ExtCommunityPart) == PartOf(y, ExtCommunityPart);
    assert PartOf(x, LargeCommunityPart) == PartOf(y, LargeCommunityPart);
  }

  ghost predicate InHash(pool: Pool, o: Option<Ptr>) {
    o.Some? ==> o.value in pool.hash && o.value in pool.cells
  }

  ghost predicate Interned(pools: Pools, attr: Attr) {
    forall k :: InHash(pools.At(k), PartOf(attr, k))
  }

  lemma InternedIsLive(pools: Pools, attr: Attr)
    requires Interned(pools, attr)
    ensures AllLive(pools, attr)
  {
    hide Pools.At, PartOf;
    forall k ensures Live(pools.At(k), PartOf(attr, k)) {
      assert InHash(pools.At(k), PartOf(attr, k));
    }
  }

  lemma SamePart(pool: Pool, x: Option<Ptr>, y: Option<Ptr>, uses: Ptr -> nat)
    requires PoolInv(pool, uses) && InHash(pool, x) && InHash(pool, y)
    ensures ValueOf(pool, x) == ValueOf(pool, y) <==> x == y
  {
  }

  /** Comparing interned parts by address compares their values, so that the hash table's
      comparison is equality of whole blocks. */
  lemma PointerIsValue(pools: Pools, attrs: map<Ptr, AttrCell>, x: Attr, y: Attr)
    requires PoolsInv(pools, attrs) && Interned(pools, x) && Interned(pools, y)
    ensures AllLive(pools, x) && AllLive(pools, y)
    ensures AttrHashCmp(x, y) <==> DeepOf(pools, x) == DeepOf(pools, y)
  {
    InternedIsLive(pools, x);
    InternedIsLive(pools, y);
    CmpIsEquality(x, y);
    var dx, dy := DeepOf(pools, x), DeepOf(pools, y);
    hide PoolInv, UsesOf, Pools.At, PartOf, Deep.At, Plain, AttrHashCmp, DeepOf;
    if dx == dy {
      forall k ensures PartOf(x, k) == PartOf(y, k) {
        assert dx.At(k) == dy.At(k);
        SamePart(pools.At(k), PartOf(x, k), PartOf(y, k), UsesOf(attrs, k));
      }
      SameBlock(x, y);
    }
  }

  /** The parts of a stored block are interned. */
  lemma StoredIsInterned(pools: Pools, attrs: map<Ptr, AttrCell>, held: multiset<Ptr>, a: Ptr)
    requires PoolsInv(pools, attrs) && BlocksInv(attrs, held) && a in attrs
    ensures Interned(pools, attrs[a].attr)
  {
    hide Pools.At, PartOf;
    forall k ensures InHash(pools.At(k), PartOf(attrs[a].attr, k)) {
      UsedIsHashed(pools.At(k), attrs, a, k);
    }
  }

  lemma UsedIsHashed(pool: Pool, attrs: map<Ptr, AttrCell>, a: Ptr, k: Kind)
    requires PoolInv(pool, UsesOf(attrs, k)) && a in attrs && attrs[a].refcnt > 0
    ensures InHash(pool, PartOf(attrs[a].attr, k))
  {
    var o := PartOf(attrs[a].attr, k);
    if o.Some? {
      UsesSplit(attrs, a, k, o.value);
      assert UsesOf(attrs, k)(o.value) > 0;
    }
  }

  lemma KeepsDeep(before: Pools, after: Pools, x: Attr)
    requires Interned(before, x) && forall k :: Keeps(before.At(k), after.At(k))
    ensures Interned(after, x) && AllLive(before, x) && AllLive(after, x)
    ensures DeepOf(after, x) == DeepOf(before, x)
  {
    hide Pools.At, PartOf, Deep.At, Plain;
    forall k ensures InHash(after.At(k), PartOf(x, k)) {
      assert InHash(before.At(k), PartOf(x, k)) && Keeps(before.At(k), after.At(k));
    }
    InternedIsLive(before, x);
    InternedIsLive(after, x);
    var d, e := DeepOf(before, x), DeepOf(after, x);
    hide DeepOf;
    forall k ensures d.At(k) == e.At(k) {
      assert InHash(before.At(k), PartOf(x, k)) && Keeps(before.At(k), after.At(k));
    }
    SameDeep(d, e);
  }

  /** Taking the parts keeps the meaning of the block and of everything already interned. */
  lemma TakeMeaning(pools: Pools, attrs: map<Ptr, AttrCell>, attr: Attr)
    requires PoolsInv(pools, attrs) && AllLive(pools, attr)
    ensures var after, got := TakeParts(pools, attr), Repointed(pools, attr);
      Interned(after, got) && AllLive(after, got) && DeepOf(after, got) == DeepOf(pools, attr)
    ensures forall k :: Keeps(pools.At(k), TakeParts(pools, attr).At(k))
  {
    var after, got := TakeParts(pools, attr), Repointed(pools, attr);
    hide PoolInv, TakeOpt, TakeParts, Repointed, UsesOf, Holds, PartOf, Pools.At, Keeps, ValueOf, Deep.At, Plain;
    forall k
      ensures InHash(after.At(k), PartOf(got, k)) && Live(after.At(k), PartOf(got, k))
      ensures ValueOf(after.At(k), PartOf(got, k)) == ValueOf(pools.At(k), PartOf(attr, k))
      ensures Keeps(pools.At(k), after.At(k))
    {
      TakeOptHash(pools.At(k), PartOf(attr, k), UsesOf(attrs, k));
      TakeKeeps(pools.At(k), PartOf(attr, k), UsesOf(attrs, k));
    }
    var d, e := DeepOf(pools, attr), DeepOf(after, got);
    hide DeepOf;
    SameDeep(d, e);
  }

  lemma TakeOptHash(pool: Pool, o: Option<Ptr>, uses: Ptr -> nat)
    requires PoolInv(pool, uses) && Live(pool, o)
    ensures var (after, q) := TakeOpt(pool, o);
      InHash(after, q) && Live(after, q) && ValueOf(after, q) == ValueOf(pool, o)
  {
    TakeOptInv(pool, o, uses);
    hide PoolInv, TakeOpt;
  }

  /** Interning keeps meanings, and hands out an existing block exactly when one with the same
      meaning is stored: equal blocks are equal pointers. */
  lemma InternMeaning(s: State, attr: Attr, addr: Ptr)
    requires Inv(s) && AllLive(s.pools, attr) && addr !in s.attrs
    ensures var (after, a) := InternAttr(s, attr, addr);
      && a in after.attrs && a in after.held && Interned(after.pools, after.attrs[a].attr)
      && AllLive(after.pools, after.attrs[a].attr)
      && DeepOf(after.pools, after.attrs[a].attr) == DeepOf(s.pools, attr)
    ensures forall b :: b in s.attrs ==> StoredAs(s, b, InternAttr(s, attr, addr).0)
    ensures forall b :: b in s.attrs ==> AllLive(s.pools, s.attrs[b].attr)
    ensures forall b :: b in s.attrs ==>
      (b == InternAttr(s, attr, addr).1 <==> DeepOf(s.pools, s.attrs[b].attr) == DeepOf(s.pools, attr))
  {
    hide *;
    InternOwnMeaning(s, attr, addr);
    forall b | b in s.attrs
      ensures StoredAs(s, b, InternAttr(s, attr, addr).0) && AllLive(s.pools, s.attrs[b].attr)
      ensures b == InternAttr(s, attr, addr).1 <==> DeepOf(s.pools, s.attrs[b].attr) == DeepOf(s.pools, attr)
    {
      InternOtherMeaning(s, attr, addr, b);
    }
  }

  lemma InternOwnMeaning(s: State, attr: Attr, addr: Ptr)
    requires Inv(s) && AllLive(s.pools, attr) && addr !in s.attrs
    ensures var (after, a) := InternAttr(s, attr, addr);
      && a in after.attrs && a in after.held && Interned(after.pools, after.attrs[a].attr)
      && AllLive(after.pools, after.attrs[a].attr)
      && DeepOf(after.pools, after.attrs[a].attr) == DeepOf(s.pools, attr)
  {
    hide PoolsInv, BlocksInv, Interned, PlaceOf, PartOf, Pools.At, HandOver, GetAttr, AllLive, TakeParts, Repointed, DeepOf;
    var taken, got := TakeParts(s.pools, attr), Repointed(s.pools, attr);
    TakeMeaning(s.pools, s.attrs, attr);
    GetAttrPlace(s.(pools := taken), got, addr);
    var (after, a) := InternAttr(s, attr, addr);
    HandOverKeeps(taken, got);
    KeepsDeep(taken, after.pools, got);
  }

  lemma InternOtherMeaning(s: State, attr: Attr, addr: Ptr, b: Ptr)
    requires Inv(s) && AllLive(s.pools, attr) && addr !in s.attrs && b in s.attrs
    ensures StoredAs(s, b, InternAttr(s, attr, addr).0) && AllLive(s.pools, s.attrs[b].attr)
    ensures b == InternAttr(s, attr, addr).1 <==> DeepOf(s.pools, s.attrs[b].attr) == DeepOf(s.pools, attr)
  {
    hide PoolsInv, BlocksInv, Interned, PlaceOf, PartOf, Pools.At, HandOver, GetAttr, AllLive, TakeParts, Repointed, DeepOf,
      AttrHashCmp, Plain;
    var taken, got := TakeParts(s.pools, attr), Repointed(s.pools, attr);
    TakePartsInv(s.pools, s.attrs, attr);
    TakeMeaning(s.pools, s.attrs, attr);
    GetAttrPlace(s.(pools := taken), got, addr);
    var (after, a) := InternAttr(s, attr, addr);
    HandOverKeeps(taken, got);
    var x := s.attrs[b].attr;
    StoredIsInterned(s.pools, s.attrs, s.held, b);
    KeepsDeep(s.pools, taken, x);
    KeepsDeep(taken, after.pools, x);
    PointerIsValue(taken, s.attrs, x, got);
    CmpIsEquality(x, got);
    StoredOnce(s.attrs, s.held, b, got, addr);
  }

  /** The block at `b` is still stored there, with the same meaning. */
  ghost predicate StoredAs(s: State, b: Ptr, after: State)
    requires b in s.attrs
  {
    && b in after.attrs && after.attrs[b].attr == s.attrs[b].attr
    && AllLive(s.pools, s.attrs[b].attr) && AllLive(after.pools, s.attrs[b].attr)
    && DeepOf(after.pools, s.attrs[b].attr) == DeepOf(s.pools, s.attrs[b].attr)
  }

  lemma StoredOnce(attrs: map<Ptr, AttrCell>, held: multiset<Ptr>, b: Ptr, attr: Attr, addr: Ptr)
    requires BlocksInv(attrs, held) && b in attrs && addr !in attrs
    ensures b == PlaceOf(attrs, attr, addr).0 <==> attrs[b].attr == attr
  {
    hide PlaceOf;
  }

  lemma HandOverKeeps(pools: Pools, attr: Attr)
    ensures forall k :: Keeps(pools.At(k), HandOver(pools, attr).At(k))
  {
    hide HandOver, PartOf, Pools.At;
  }

  // ----- uninterning undoes interning

  lemma TakeInternedOpt(pool: Pool, o: Option<Ptr>, uses: Ptr -> nat)
    requires PoolInv(pool, uses) && InHash(pool, o)
    ensures TakeOpt(pool, o).1 == o && Live(TakeOpt(pool, o).0, o) && DropOpt(TakeOpt(pool, o).0, o) == pool
  {
    if o.Some? { DropUndoesTake(pool, o.value, uses); }
  }

  lemma InOutOpt(pool: Pool, o: Option<Ptr>)
    requires Holds(pool, o)
    ensures HandIn(HandOut(pool, o), o) == pool
  {
    assert pool.held - Bag(o) + Bag(o) == pool.held;
  }

  lemma SamePools(x: Pools, y: Pools)
    requires forall k :: x.At(k) == y.At(k)
    ensures x == y
  {
    assert x.At(AsPathPart) == y.At(AsPathPart) && x.At(CommunityPart) == y.At(CommunityPart);
    assert x.At(ExtCommunityPart) == y.At(ExtCommunityPart) && x.At(LargeCommunityPart) == y.At(LargeCommunityPart);
  }

  lemma InOut(pools: Pools, attr: Attr)
    requires forall k :: Holds(pools.At(k), PartOf(attr, k))
    ensures TakeBack(HandOver(pools, attr), attr) == pools
  {
    hide PartOf, Pools.At, HandOver, TakeBack, HandIn, HandOut, Holds;
    var out := HandOver(pools, attr);
    var back := TakeBack(out, attr);
    forall k ensures back.At(k) == pools.At(k) {
      InOutOpt(pools.At(k), PartOf(attr, k));
    }
    SamePools(back, pools);
  }

  lemma DropUndoesTakeAll(pools: Pools, attrs: map<Ptr, AttrCell>, attr: Attr)
    requires PoolsInv(pools, attrs) && Interned(pools, attr)
    ensures AllLive(pools, attr) && Repointed(pools, attr) == attr
    ensures AllLive(TakeParts(pools, attr), attr) && DropParts(TakeParts(pools, attr), attr) == pools
  {
    InternedIsLive(pools, attr);
    var taken, got := TakeParts(pools, attr), Repointed(pools, attr);
    hide PartOf, Pools.At, TakeParts, DropParts, Repointed, TakeOpt, DropOpt, PoolInv, UsesOf, InHash, Live, Plain;
    forall k
      ensures PartOf(got, k) == PartOf(attr, k) && Live(taken.At(k), PartOf(attr, k))
      ensures DropOpt(taken.At(k), PartOf(attr, k)) == pools.At(k)
    {
      TakeInternedOpt(pools.At(k), PartOf(attr, k), UsesOf(attrs, k));
    }
    SameBlock(got, attr);
    var back := DropParts(taken, attr);
    forall k ensures back.At(k) == pools.At(k) {
      DropPartsAt(taken, attr, k);
    }
    SamePools(back, pools);
  }

  lemma ShrinkUndoesGrow(attrs: map<Ptr, AttrCell>, a: Ptr, attr: Attr, n: nat)
    requires if a in attrs then attrs[a] == AttrCell(attr, n) && n > 0 else n == 0
    ensures Shrunk(attrs[a := AttrCell(attr, n + 1)], a) == attrs
  {
  }

  /** For a block of interned parts, uninterning what was interned restores every pool, every
      count and both hash tables. */
  lemma UninternUndoesIntern(s: State, attr: Attr, addr: Ptr)
    requires Inv(s) && Interned(s.pools, attr) && addr !in s.attrs
    ensures AllLive(s.pools, attr)
    ensures var (after, a) := InternAttr(s, attr, addr);
      a in after.attrs && AllLive(after.pools, after.attrs[a].attr) && UninternAttr(after, a) == s
  {
    hide PoolsInv, BlocksInv, Interned, PlaceOf, PartOf, Pools.At, HandOver, GetAttr, AllLive, TakeParts, Repointed,
      TakeBack, DropParts, Shrunk, Holds;
    DropUndoesTakeAll(s.pools, s.attrs, attr);
    TakePartsInv(s.pools, s.attrs, attr);
    var taken := TakeParts(s.pools, attr);
    GetAttrPlace(s.(pools := taken), attr, addr);
    var (a, n) := PlaceOf(s.attrs, attr, addr);
    var after := InternAttr(s, attr, addr).0;
    CountedBlock(s.attrs, s.held, attr, addr);
    HandOverLive(taken, attr);
    InOut(taken, attr);
    ShrinkUndoesGrow(s.attrs, a, attr, n);
    assert after.held - multiset{a} == s.held;
    assert ReleaseAttr(after, a) == State(taken, s.attrs, s.held);
  }

  lemma CountedBlock(attrs: map<Ptr, AttrCell>, held: multiset<Ptr>, attr: Attr, addr: Ptr)
    requires BlocksInv(attrs, held) && addr !in attrs
    ensures var (a, n) := PlaceOf(attrs, attr, addr); a in attrs ==> n > 0
  {
  }

  lemma HandOverLive(pools: Pools, attr: Attr)
    requires AllLive(pools, attr)
    ensures AllLive(HandOver(pools, attr), attr)
  {
    hide HandOver, PartOf, Pools.At;
  }

  // ----- every run

  datatype Op =
    | New(k: Kind, p: Ptr, v: Value)
    | Free(k: Kind, p: Ptr)
    | Intern(k: Kind, p: Ptr)
    | Unintern(k: Kind, p: Ptr)
    | InternBlock(attr: Attr, addr: Ptr)
    | UninternBlock(addr: Ptr)

  /** What callers owe: a new address is unused, a freed part is not interned, a reference is
      dropped only by who holds it, and a block to intern points to parts that exist. */
  ghost predicate Enabled(s: State, op: Op) {
    match op
    case New(k, p, v) => p !in s.pools.At(k).cells
    case Free(k, p) => p in s.pools.At(k).cells && s.pools.At(k).cells[p].refcnt == 0
    case Intern(k, p) => p in s.pools.At(k).cells && s.pools.At(k).cells[p].refcnt == 0
    case Unintern(k, p) => p in s.pools.At(k).held && p in s.pools.At(k).cells
    case InternBlock(attr, addr) => AllLive(s.pools, attr) && addr !in s.attrs
    case UninternBlock(a) => a in s.held && a in s.attrs && AllLive(s.pools, s.attrs[a].attr)
  }

  ghost function PoolStep(pool: Pool, op: Op): Pool {
    match op
    case New(_, p, v) => Allocate(pool, p, v)
    case Free(_, p) => pool.(cells := pool.cells - {p})
    case Intern(_, p) => if p in pool.cells then InternPart(pool, p).0 else pool
    case Unintern(_, p) => if p in pool.cells then DropPart(pool, p) else pool
    case _ => pool
  }

  ghost function Exec(s: State, op: Op): State {
    if !Enabled(s, op) then s
    else match op
      case InternBlock(attr, addr) => InternAttr(s, attr, addr).0
      case UninternBlock(a) => UninternAttr(s, a)
      case _ => s.(pools := s.pools.With(op.k, PoolStep(s.pools.At(op.k), op)))
  }

  ghost function Run(s: State, ops: seq<Op>): State
    decreases |ops|
  {
    if ops == [] then s else Run(Exec(s, ops[0]), ops[1..])
  }

  const EMPTY_POOL := Pool(map[], {}, multiset{})

  const START := State(Pools(EMPTY_POOL, EMPTY_POOL, EMPTY_POOL, EMPTY_POOL), map[], multiset{})

  lemma PoolStepInv(pool: Pool, op: Op, uses: Ptr -> nat)
    requires PoolInv(pool, uses)
    requires match op
             case New(_, p, v) => p !in pool.cells
             case Free(_, p) => p in pool.cells && pool.cells[p].refcnt == 0
             case Intern(_, p) => p in pool.cells && pool.cells[p].refcnt == 0
             case Unintern(_, p) => p in pool.held && p in pool.cells
             case _ => true
    ensures PoolInv(PoolStep(pool, op), uses)
  {
    match op
    case New(_, p, v) => AllocateInv(pool, p, v, uses);
    case Free(_, p) => FreeLooseInv(pool, p, uses);
    case Intern(_, p) => InternPartInv(pool, p, uses);
    case Unintern(_, p) => DropPartInv(pool, p, uses);
    case _ =>
  }

  lemma PoolChangeInv(s: State, k: Kind, pool: Pool)
    requires Inv(s) && PoolInv(pool, UsesOf(s.attrs, k))
    ensures Inv(s.(pools := s.pools.With(k, pool)))
  {
    hide PoolInv, BlocksInv, UsesOf, Pools.At;
    var after := s.pools.With(k, pool);
    forall j ensures PoolInv(after.At(j), UsesOf(s.attrs, j)) {
      assert j != k ==> after.At(j) == s.pools.At(j);
    }
  }

  lemma ExecInv(s: State, op: Op)
    requires Inv(s)
    ensures Inv(Exec(s, op))
  {
    hide PoolInv, BlocksInv, UsesOf, Pools.At, Pools.With, InternAttr, UninternAttr, AllLive, PoolStep;
    if Enabled(s, op) {
      match op
      case InternBlock(attr, addr) => InternAttrInv(s, attr, addr);
      case UninternBlock(a) => UninternAttrInv(s, a);
      case _ =>
        PoolStepInv(s.pools.At(op.k), op, UsesOf(s.attrs, op.k));
        PoolChangeInv(s, op.k, PoolStep(s.pools.At(op.k), op));
    }
  }

  lemma {:induction false} RunInv(s: State, ops: seq<Op>)
    requires Inv(s)
    ensures Inv(Run(s, ops))
    decreases |ops|
  {
    if ops != [] {
      ExecInv(s, ops[0]);
      RunInv(Exec(s, ops[0]), ops[1..]);
    }
  }

  lemma StartInv()
    ensures Inv(START)
  {
    forall k ensures PoolInv(START.pools.At(k), UsesOf(map[], k)) {
    }
  }

  /** In every run: counts add up over both levels, whatever is referenced has not been freed,
      and what is interned is there exactly as long as it is referenced. */
  lemma RunConserves(ops: seq<Op>, k: Kind, p: Ptr)
    ensures var s := Run(START, ops);
      var pool := s.pools.At(k);
      var references := pool.held[p] + Uses(s.attrs, k, p);
      && (p in pool.cells ==> pool.cells[p].refcnt == references)
      && (references > 0 ==> p in pool.cells && p in pool.hash)
      && (p in pool.hash ==> references > 0)
  {
    StartInv();
    RunInv(START, ops);
    var s := Run(START, ops);
    assert PoolInv(s.pools.At(k), UsesOf(s.attrs, k));
    assert UsesOf(s.attrs, k)(p) == Uses(s.attrs, k, p);
    hide Uses, Run, Pools.At;
  }

  /** In every run, two stored blocks with the same meaning are one block. */
  lemma RunShares(ops: seq<Op>, a: Ptr, b: Ptr)
    requires a in Run(START, ops).attrs && b in Run(START, ops).attrs
    ensures var s := Run(START, ops);
      && AllLive(s.pools, s.attrs[a].attr) && AllLive(s.pools, s.attrs[b].attr)
      && (a == b <==> DeepOf(s.pools, s.attrs[a].attr) == DeepOf(s.pools, s.attrs[b].attr))
  {
    hide *;
    StartInv();
    RunInv(START, ops);
    SharedOnce(Run(START, ops), a, b);
  }

  lemma SharedOnce(s: State, a: Ptr, b: Ptr)
    requires Inv(s) && a in s.attrs && b in s.attrs
    ensures AllLive(s.pools, s.attrs[a].attr) && AllLive(s.pools, s.attrs[b].attr)
    ensures a == b <==> DeepOf(s.pools, s.attrs[a].attr) == DeepOf(s.pools, s.attrs[b].attr)
  {
    hide PoolsInv, AllLive, DeepOf, Interned, AttrHashCmp;
    StoredIsInterned(s.pools, s.attrs, s.held, a);
    StoredIsInterned(s.pools, s.attrs, s.held, b);
    PointerIsValue(s.pools, s.attrs, s.attrs[a].attr, s.attrs[b].attr);
    CmpIsEquality(s.attrs[a].attr, s.attrs[b].attr);
  }

  /** Once every reference has been given back nothing interned is left. */
  lemma NoLeak(s: State, k: Kind)
    requires Inv(s) && s.held == multiset{} && s.pools.At(k).held == multiset{}
    ensures s.attrs == map[] && s.pools.At(k).hash == {}
  {
    assert forall a :: a in s.attrs ==> s.held[a] > 0;
    assert s.attrs == map[];
    assert PoolInv(s.pools.At(k), UsesOf(s.attrs, k));
    assert forall p :: UsesOf(s.attrs, k)(p) == 0;
    hide Pools.At, Uses;
  }

  // ----- the tables as the daemon updates them

  class Tables {
    var pools: Pools
    var attrs: map<Ptr, AttrCell>
    ghost var held: multiset<Ptr>

    constructor ()
      ensures View() == START && Inv(View())
    {
      pools, attrs, held := START.pools, map[], multiset{};
      new;
      StartInv();
    }

    ghost function View(): State
      reads this
    {
      State(pools, attrs, held)
    }

    /** The hash table lookup of a part by value. */
    method HashLookup(k: Kind, v: Value) returns (r: Option<Ptr>)
      requires Inv(View())
      ensures r == Found(pools.At(k), v)
    {
      var pool := pools.At(k);
      assert PoolInv(pool, UsesOf(attrs, k));
      hide Inv, UsesOf, Pools.At;
      if q :| q in pool.hash && pool.cells[q].value == v {
        assert Hits(pool, v, q);
        r := Some(q);
      } else {
        r := None;
      }
    }

    method Bump(k: Kind, p: Ptr)
      requires p in pools.At(k).cells
      modifies this`pools
      ensures pools == old(pools).With(k, AddRef(old(pools).At(k), p))
    {
      var pool := pools.At(k);
      var cell := pool.cells[p];
      pools := pools.With(k, pool.(cells := pool.cells[p := cell.(refcnt := cell.refcnt + 1)],
                                   held := pool.held + multiset{p}));
    }

    method InternShared(k: Kind, p: Ptr) returns (q: Ptr)
      requires Inv(View()) && p in pools.At(k).cells && pools.At(k).cells[p].refcnt == 0
      modifies this`pools
      ensures pools == old(pools).With(k, InternPart(old(pools).At(k), p).0)
      ensures q == InternPart(old(pools).At(k), p).1
      ensures Inv(View())
    {
      hide Inv;
      InternInv(View(), k, p);
      var find := HashLookup(k, pools.At(k).cells[p].value);
      match find {
        case Some(f) =>
          q := f;
          if f != p {
            var pool := pools.At(k);
            pools := pools.With(k, pool.(cells := pool.cells - {p}));
          }
        case None =>
          q := p;
          var pool := pools.At(k);
          pools := pools.With(k, pool.(hash := pool.hash + {p}));
      }
      Bump(k, q);
      Overwritten(old(pools), k, pools);
    }

    method UninternShared(k: Kind, p: Ptr)
      requires Inv(View()) && p in pools.At(k).held
      modifies this`pools
      ensures p in old(pools).At(k).cells && pools == old(pools).With(k, DropPart(old(pools).At(k), p))
      ensures Inv(View())
    {
      hide Inv, Pools.At, Pools.With;
      DropInv(View(), k, p);
      var pool := pools.At(k);
      ghost var before := pool;
      var cell := pool.cells[p];
      if cell.refcnt > 0 {
        cell := cell.(refcnt := cell.refcnt - 1);
      }
      pool := pool.(cells := pool.cells[p := cell], held := pool.held - multiset{p});
      if cell.refcnt == 0 {
        pool := pool.(hash := pool.hash - {p}, cells := pool.cells - {p});
        assert pool.cells == before.cells - {p};
      }
      assert pool == DropPart(before, p);
      pools := pools.With(k, pool);
    }

    /** One part of a block being interned. */
    method TakeShared(k: Kind, o: Option<Ptr>) returns (q: Option<Ptr>)
      requires Inv(View()) && Live(pools.At(k), o)
      modifies this`pools
      ensures pools == old(pools).With(k, TakeOpt(old(pools).At(k), o).0)
      ensures q == TakeOpt(old(pools).At(k), o).1
      ensures Inv(View())
    {
      ghost var before := pools.At(k);
      TakeOptInv(before, o, UsesOf(attrs, k));
      PoolChangeInv(View(), k, TakeOpt(before, o).0);
      hide Inv;
      q := None;
      if o.Some? {
        if pools.At(k).cells[o.value].refcnt == 0 {
          var p := InternShared(k, o.value);
          q := Some(p);
        } else {
          Bump(k, o.value);
          q := o;
        }
      } else {
        Unchanged(pools, k);
      }
    }

    /** The parts of a block being interned. */
    method TakeAll(attr: Attr) returns (got: Attr)
      requires Inv(View()) && AllLive(pools, attr)
      modifies this`pools
      ensures pools == TakeParts(old(pools), attr)
      ensures got == Repointed(old(pools), attr)
      ensures Inv(View())
    {
      TakeNothing(pools);
      hide Inv, TakeOpt;
      var path := TakeShared(AsPathPart, attr.path);
      var community := TakeShared(CommunityPart, attr.community);
      got := attr.(path := path, community := community);
      if attr.extra.Some? {
        var extra := attr.extra.value;
        var ecommunity := TakeShared(ExtCommunityPart, extra.ecommunity);
        var lcommunity := TakeShared(LargeCommunityPart, extra.lcommunity);
        got := got.(extra := Some(extra.(ecommunity := ecommunity, lcommunity := lcommunity)));
      }
    }

    /** The hash table lookup of a block, which compares parts by address. */
    method FindAttribute(attr: Attr, ghost addr: Ptr) returns (r: Option<Ptr>)
      requires BlocksInv(attrs, held) && addr !in attrs
      ensures match r
              case Some(b) => b in attrs && b == PlaceOf(attrs, attr, addr).0
              case None => PlaceOf(attrs, attr, addr) == (addr, 0)
    {
      if b :| b in attrs && AttrHashCmp(attrs[b].attr, attr) {
        CmpIsEquality(attrs[b].attr, attr);
        StoredOnce(attrs, held, b, attr, addr);
        r := Some(b);
      } else {
        AbsentBlock(attrs, attr, addr);
        r := None;
      }
    }

    /** Finds the block or stores it, and counts one more reference. */
    method StoreAttribute(attr: Attr, addr: Ptr) returns (a: Ptr)
      requires BlocksInv(attrs, held) && addr !in attrs
      modifies this
      ensures (View(), a) == GetAttr(old(View()), attr, addr)
    {
      hide HandOver, GetAttr, PlaceOf, BlocksInv;
      GetAttrPlace(View(), attr, addr);
      var find := FindAttribute(attr, addr);
      match find {
        case Some(b) =>
          a := b;
        case None =>
          a := addr;
          attrs := attrs[addr := AttrCell(attr, 0)];
      }
      var cell := attrs[a];
      attrs := attrs[a := cell.(refcnt := cell.refcnt + 1)];
      pools, held := HandOver(pools, attr), held + multiset{a};
      assert attrs == old(attrs)[a := AttrCell(attr, PlaceOf(old(attrs), attr, addr).1 + 1)];
    }

    /** Interns a block: each part first, then the block itself. */
    method InternAttribute(attr: Attr, addr: Ptr) returns (a: Ptr)
      requires Inv(View()) && AllLive(pools, attr) && addr !in attrs
      modifies this
      ensures (View(), a) == InternAttr(old(View()), attr, addr)
      ensures Inv(View())
    {
      hide BlocksInv, PoolsInv, TakeParts, Repointed, AllLive, GetAttr;
      InternAttrInv(View(), attr, addr);
      var got := TakeAll(attr);
      a := StoreAttribute(got, addr);
    }

    method DropShared(k: Kind, o: Option<Ptr>)
      requires Inv(View()) && (o.Some? ==> o.value in pools.At(k).held)
      modifies this`pools
      ensures Live(old(pools).At(k), o) && pools == old(pools).With(k, DropOpt(old(pools).At(k), o))
      ensures Inv(View())
    {
      hide Inv;
      if o.Some? {
        UninternShared(k, o.value);
      } else {
        Unchanged(pools, k);
      }
    }

    /** Drops the references of one use of a block on its parts. */
    method UninternSub(attr: Attr)
      requires Inv(View()) && AllLive(pools, attr)
      requires forall k :: PartOf(attr, k).Some? ==> PartOf(attr, k).value in pools.At(k).held
      modifies this`pools
      ensures pools == DropParts(old(pools), attr)
      ensures Inv(View())
    {
      DropNothing(pools);
      hide Inv, DropOpt;
      ghost var before := pools;
      DropShared(AsPathPart, PartOf(attr, AsPathPart));
      DropShared(CommunityPart, PartOf(attr, CommunityPart));
      if attr.extra.Some? {
        DropShared(ExtCommunityPart, PartOf(attr, ExtCommunityPart));
        DropShared(LargeCommunityPart, PartOf(attr, LargeCommunityPart));
      }
    }

    /** Drops one reference to a block, and with it one to each of its parts. */
    method UninternAttribute(a: Ptr)
      requires Inv(View()) && a in held
      modifies this
      ensures a in old(attrs) && AllLive(old(pools), old(attrs)[a].attr)
      ensures View() == UninternAttr(old(View()), a) && Inv(View())
    {
      hide Inv, ReleaseAttr, DropParts, AllLive, PartOf, Pools.At;
      ReleaseAttrInv(View(), a);
      var attr := ReleaseAttribute(a);
      UninternSub(attr);
    }

    method ReleaseAttribute(a: Ptr) returns (attr: Attr)
      requires a in attrs && AllLive(pools, attrs[a].attr)
      modifies this
      ensures View() == ReleaseAttr(old(View()), a) && attr == old(attrs)[a].attr
      ensures forall k :: PartOf(attr, k).Some? ==> PartOf(attr, k).value in pools.At(k).held
      ensures AllLive(pools, attr)
    {
      hide TakeBack, AllLive, PartOf, Pools.At;
      var cell := attrs[a];
      attr := cell.attr;
      TakeBackHolds(pools, attr);
      var left := if cell.refcnt > 0 then cell.refcnt - 1 else 0;
      if left == 0 {
        attrs := attrs - {a};
      } else {
        attrs := attrs[a := cell.(refcnt := left)];
      }
      pools, held := TakeBack(pools, attr), held - multiset{a};
    }
  }

  lemma TakeNothing(pools: Pools)
    ensures forall k :: TakeOpt(pools.At(k), None) == (pools.At(k), None)
  {
  }

  lemma DropNothing(pools: Pools)
    ensures forall k :: DropOpt(pools.At(k), None) == pools.At(k)
  {
  }

  lemma AbsentBlock(attrs: map<Ptr, AttrCell>, attr: Attr, addr: Ptr)
    requires addr !in attrs && forall b :: b in attrs ==> !AttrHashCmp(attrs[b].attr, attr)
    ensures PlaceOf(attrs, attr, addr) == (addr, 0)
  {
    var (a, n) := PlaceOf(attrs, attr, addr);
    CmpIsEquality(attr, attr);
    hide PlaceOf, AttrHashCmp;
  }

  lemma TakeBackHolds(pools: Pools, attr: Attr)
    ensures forall k :: PartOf(attr, k).Some? ==> PartOf(attr, k).value in TakeBack(pools, attr).At(k).held
    ensures AllLive(pools, attr) ==> AllLive(TakeBack(pools, attr), attr)
  {
    hide TakeBack, PartOf, Pools.At;
  }

  lemma InternInv(s: State, k: Kind, p: Ptr)
    requires Inv(s) && p in s.pools.At(k).cells && s.pools.At(k).cells[p].refcnt == 0
    ensures Inv(s.(pools := s.pools.With(k, InternPart(s.pools.At(k), p).0)))
  {
    InternPartInv(s.pools.At(k), p, UsesOf(s.attrs, k));
    hide PoolInv, InternPart;
    PoolChangeInv(s, k, InternPart(s.pools.At(k), p).0);
  }

  lemma DropInv(s: State, k: Kind, p: Ptr)
    requires Inv(s) && p in s.pools.At(k).held
    ensures p in s.pools.At(k).cells
    ensures Inv(s.(pools := s.pools.With(k, DropPart(s.pools.At(k), p))))
  {
    assert PoolInv(s.pools.At(k), UsesOf(s.attrs, k));
    DropPartInv(s.pools.At(k), p, UsesOf(s.attrs, k));
    hide PoolInv, DropPart;
    PoolChangeInv(s, k, DropPart(s.pools.At(k), p));
  }

  lemma Overwritten(pools: Pools, k: Kind, after: Pools)
    requires forall j :: j != k ==> after.At(j) == pools.At(j)
    ensures after == pools.With(k, after.At(k))
  {
    SamePools(after, pools.With(k, after.At(k)));
  }

  lemma Unchanged(pools: Pools, k: Kind)
    ensures pools.With(k, pools.At(k)) == pools
  {
  }
}
