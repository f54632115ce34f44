/** Placement of native RAM regions in the shared block (include/quetz/quetz_ipc_types.h), for every region list
    the configuration parser accepts (src/quetz_platform_contract.h). */
module NativeRam {

  const MAX_REGIONS: nat := 2
  const REGION_BYTES: nat := 65536
  const PAGE: nat := 4096
  const GUEST: nat := 0x1_0000_0000
  const WORD32: nat := 0x1_0000_0000

  /** Byte offset of the store in the block: counters, response and request slots, IRQ slots, generation, reset
      epochs, the region count and the region table come before it. */
  const BEGIN: nat := 24 + 8 + 256 * 16 + 256 * 32 + 256 * 64 * 8 + 8 + 256 * 4 + 4 + MAX_REGIONS * 16

  /** The size the block reserves. */
  const STORE: nat := (MAX_REGIONS + 1) * REGION_BYTES - 1

  datatype Region = Region(base: nat, size: nat, offset: nat, reserved: nat)

  /** A mapping of the block at `addr`, with a store of `store` bytes. */
  datatype Shared = Shared(addr: nat, store: nat, regions: seq<Region>)

  // ---------------------------------------------------------------- the parser's conditions

  predicate Overlap(a: nat, n: nat, b: nat, m: nat) { a < b + m && b < a + n }

  predicate EntryAccepted(rs: seq<Region>, i: nat)
    requires i < |rs|
  {
    var r := rs[i];
    && 0 < r.size <= REGION_BYTES && r.size % PAGE == 0 && r.base % PAGE == 0
    && r.base < GUEST && r.size <= GUEST - r.base
    && (forall j | 0 <= j < i :: !Overlap(r.base, r.size, rs[j].base, rs[j].size))
  }

  /** A list of base and size pairs that parses. */
  predicate Accepted(rs: seq<Region>) { |rs| <= MAX_REGIONS && forall i | 0 <= i < |rs| :: EntryAccepted(rs, i) }

  // ---------------------------------------------------------------- validity of a configured block

  predicate RegionOk(sh: Shared, i: nat)
    requires i < |sh.regions|
  {
    var a := sh.regions[i];
    && 0 < a.size <= REGION_BYTES && a.base % PAGE == 0 && a.size % PAGE == 0 && a.base + a.size <= GUEST
    && BEGIN <= a.offset && a.size <= BEGIN + sh.store && a.offset <= BEGIN + sh.store - a.size && a.reserved == 0
    && (sh.addr + a.offset) % PAGE == 0
  }

  predicate PairOk(sh: Shared, i: nat, j: nat)
    requires i < |sh.regions| && j < |sh.regions|
  {
    var a, b := sh.regions[i], sh.regions[j];
    && !(a.base < b.base + b.size && b.base < a.base + a.size)
    && !(a.offset < (b.offset + b.size) % WORD32 && b.offset < (a.offset + a.size) % WORD32)
  }

  predicate RegionsValid(sh: Shared) {
    && |sh.regions| <= MAX_REGIONS
    && (forall i | 0 <= i < |sh.regions| :: RegionOk(sh, i))
    && (forall i, j | 0 <= j < i < |sh.regions| :: PairOk(sh, i, j))
  }

  /** The check, loop by loop. */
  method NativeRegionsValid(sh: Shared) returns (ok: bool)
    ensures ok == RegionsValid(sh)
  {
    if |sh.regions| > MAX_REGIONS { return false; }
    var i := 0;
    while i < |sh.regions|
      invariant 0 <= i <= |sh.regions|
      invariant forall k | 0 <= k < i :: RegionOk(sh, k)
      invariant forall k, j | 0 <= j < k < i :: PairOk(sh, k, j)
    {
      if !RegionOk(sh, i) { return false; }
      var j := 0;
      while j < i
        invariant 0 <= j <= i && forall k | 0 <= k < j :: PairOk(sh, i, k)
      {
        if !PairOk(sh, i, j) { return false; }
        j := j + 1;
      }
      i := i + 1;
    }
    return true;
  }

  // ---------------------------------------------------------------- placing the regions

  /** The first 64 KiB boundary in the store, as an offset into the block. */
  function First(addr: nat): (f: nat)
    ensures BEGIN <= f < BEGIN + REGION_BYTES && (addr + f) % REGION_BYTES == 0
  {
    var up := addr + BEGIN + (REGION_BYTES - 1);
    up - up % REGION_BYTES - addr
  }

  function Placed(addr: nat, rs: seq<Region>): (r: seq<Region>)
    ensures |r| == |rs|
    ensures forall i {:trigger r[i]} | 0 <= i < |rs| ::
        r[i] == rs[i].(offset := (First(addr) + i * REGION_BYTES) % WORD32, reserved := 0)
  {
    seq(|rs|, i requires 0 <= i < |rs| => rs[i].(offset := (First(addr) + i * REGION_BYTES) % WORD32, reserved := 0))
  }

  /** The block in memory: configuring it writes the region table in place. */
  class SharedBlock {
    const addr: nat
    const store: nat
    var regions: seq<Region>

    function State(): Shared reads this { Shared(addr, store, regions) }

    constructor (at: nat, bytes: nat)
      ensures addr == at && store == bytes && regions == []
    {
      addr, store, regions := at, bytes, [];
    }

    method ConfigureNativeRegions(rs: seq<Region>) returns (ok: bool)
      modifies this
      ensures ok == (|rs| <= MAX_REGIONS && RegionsValid(Shared(addr, store, Placed(addr, rs))))
      ensures regions == if ok then Placed(addr, rs) else if |rs| > MAX_REGIONS then old(regions) else []
    {
      if |rs| > MAX_REGIONS { return false; }
      var first := First(addr);
      regions := [];
      var i := 0;
      while i < |rs|
        invariant 0 <= i <= |rs| && regions == Placed(addr, rs)[..i]
      {
        regions := regions + [rs[i].(offset := (first + i * REGION_BYTES) % WORD32, reserved := 0)];
        i := i + 1;
      }
      assert regions == Placed(addr, rs);
      ok := NativeRegionsValid(State());
      if !ok { regions := []; }
    }
  }

  // ---------------------------------------------------------------- the store is just large enough

  lemma PlacedRegionOk(addr: nat, store: nat, rs: seq<Region>, i: nat)
    requires Accepted(rs) && i < |rs| && store >= STORE
    ensures RegionOk(Shared(addr, store, Placed(addr, rs)), i)
  {
    assert EntryAccepted(rs, i);
    var f := First(addr);
    assert i * REGION_BYTES <= REGION_BYTES;
    PageAligned(addr + f, i);
  }

  lemma PageAligned(x: nat, i: nat)
    requires x % REGION_BYTES == 0 && i < 2
    ensures (x + i * REGION_BYTES) % PAGE == 0
  {
    assert x == (x / REGION_BYTES) * REGION_BYTES;
    assert x + i * REGION_BYTES == ((x / REGION_BYTES + i) * 16) * PAGE;
  }

  lemma PlacedPairOk(addr: nat, store: nat, rs: seq<Region>)
    requires Accepted(rs) && |rs| == 2
    ensures PairOk(Shared(addr, store, Placed(addr, rs)), 1, 0)
  {
    assert EntryAccepted(rs, 1) && EntryAccepted(rs, 0);
    var r := Placed(addr, rs);
    assert r[0] == rs[0].(offset := First(addr) % WORD32, reserved := 0);
    assert r[1] == rs[1].(offset := (First(addr) + REGION_BYTES) % WORD32, reserved := 0);
  }

  lemma AcceptedIsPlaced(addr: nat, store: nat, rs: seq<Region>)
    requires Accepted(rs) && store >= STORE
    ensures RegionsValid(Shared(addr, store, Placed(addr, rs)))
  {
    var sh := Shared(addr, store, Placed(addr, rs));
    forall i | 0 <= i < |sh.regions| ensures RegionOk(sh, i) { PlacedRegionOk(addr, store, rs, i); }
    if |rs| == 2 { PlacedPairOk(addr, store, rs); }
  }

  /** Two full regions, and a block one byte past a boundary: the worst case. */
  function WorstList(): seq<Region> { [Region(0, REGION_BYTES, 0, 0), Region(REGION_BYTES, REGION_BYTES, 0, 0)] }

  function WorstAddress(): nat { REGION_BYTES - BEGIN % REGION_BYTES + 1 }

  lemma WorstCase(store: nat)
    requires store < STORE
    ensures Accepted(WorstList()) && !RegionsValid(Shared(WorstAddress(), store, Placed(WorstAddress(), WorstList())))
  {
    var rs, addr := WorstList(), WorstAddress();
    assert EntryAccepted(rs, 0) && EntryAccepted(rs, 1);
    assert First(addr) == BEGIN + REGION_BYTES - 1;
    var sh := Shared(addr, store, Placed(addr, rs));
    assert sh.regions[1].offset == BEGIN + 2 * REGION_BYTES - 1;
    assert !RegionOk(sh, 1);
  }

  ghost predicate AlwaysPlaces(store: nat) {
    forall addr: nat, rs {:trigger Placed(addr, rs)} | Accepted(rs) ::
        RegionsValid(Shared(addr, store, Placed(addr, rs)))
  }

  /** Every accepted list is placed validly at every alignment of the block exactly when the store has at least
      3 * 64 KiB - 1 bytes, which is what the block reserves. */
  lemma StoreJustLargeEnough(store: nat)
    ensures AlwaysPlaces(store) <==> store >= STORE
  {
    if store >= STORE {
      forall addr: nat, rs | Accepted(rs) ensures RegionsValid(Shared(addr, store, Placed(addr, rs))) {
        AcceptedIsPlaced(addr, store, rs);
      }
    } else {
      WorstCase(store);
      assert !RegionsValid(Shared(WorstAddress(), store, Placed(WorstAddress(), WorstList())));
    }
  }

  /** The backings are inside the store and do not overlap. */
  lemma BackingsDisjoint(addr: nat, rs: seq<Region>)
    requires Accepted(rs)
    ensures (var r := Placed(addr, rs);
             && (forall i {:trigger r[i]} | 0 <= i < |r| ::
                     BEGIN <= r[i].offset && r[i].offset + r[i].size <= BEGIN + STORE)
             && (|r| == 2 ==> !Overlap(r[1].offset, r[1].size, r[0].offset, r[0].size)))
  {
    var sh := Shared(addr, STORE, Placed(addr, rs));
    AcceptedIsPlaced(addr, STORE, rs);
    forall i | 0 <= i < |sh.regions|
      ensures BEGIN <= sh.regions[i].offset && sh.regions[i].offset + sh.regions[i].size <= BEGIN + STORE
    {
      assert RegionOk(sh, i);
    }
    if |rs| == 2 { assert PairOk(sh, 1, 0); }
  }

  /** Another process may map the block at any address a whole number of pages away: validity does not change. */
  lemma RemappingKeepsValidity(sh: Shared, other: nat)
    requires other % PAGE == sh.addr % PAGE
    ensures RegionsValid(sh) <==> RegionsValid(sh.(addr := other))
  {
    var to := sh.(addr := other);
    forall i | 0 <= i < |sh.regions| ensures RegionOk(sh, i) == RegionOk(to, i) {
      SamePage(sh.addr, other, sh.regions[i].offset);
    }
    forall i, j | 0 <= j < i < |sh.regions| ensures PairOk(sh, i, j) == PairOk(to, i, j) {}
  }

  lemma SamePage(a: nat, b: nat, offset: nat)
    requires a % PAGE == b % PAGE
    ensures (a + offset) % PAGE == (b + offset) % PAGE
  {
    assert (a + offset) % PAGE == (a % PAGE + offset) % PAGE;
    assert (b + offset) % PAGE == (b % PAGE + offset) % PAGE;
  }

  // ---------------------------------------------------------------- what the check refuses, whoever wrote the table

  predicate Covers(from: nat, size: nat, x: nat) { from <= x < from + size }

  /** A region of whole pages, at most 64 KiB, inside the 32-bit address space, backed inside the store at a page
      boundary of the mapping. */
  predicate Fits(sh: Shared, r: Region) {
    && 1 <= r.size <= 65536 && r.size % 4096 == 0 && r.base % 4096 == 0 && r.base + r.size <= 0x1_0000_0000
    && BEGIN <= r.offset && r.offset + r.size <= BEGIN + sh.store && (sh.addr + r.offset) % 4096 == 0 && r.reserved == 0
  }

  /** No guest address and no byte of the store belongs to both. */
  ghost predicate Apart(a: Region, b: Region) {
    && (forall x: nat {:trigger Covers(a.base, a.size, x)} :: Covers(a.base, a.size, x) ==> !Covers(b.base, b.size, x))
    && (forall x: nat {:trigger Covers(a.offset, a.size, x)} ::
            Covers(a.offset, a.size, x) ==> !Covers(b.offset, b.size, x))
  }

  lemma ApartIff(a: nat, n: nat, b: nat, m: nat)
    requires n > 0 && m > 0
    ensures Overlap(a, n, b, m) <==> exists x: nat :: Covers(a, n, x) && Covers(b, m, x)
  {
    if Overlap(a, n, b, m) {
      var x := if a < b then b else a;
      assert Covers(a, n, x) && Covers(b, m, x);
    }
  }

  lemma PairIsApart(sh: Shared, i: nat, j: nat)
    requires i < |sh.regions| && j < |sh.regions| && BEGIN + sh.store < WORD32
    requires Fits(sh, sh.regions[i]) && Fits(sh, sh.regions[j])
    ensures PairOk(sh, i, j) <==> Apart(sh.regions[i], sh.regions[j])
  {
    var a, b := sh.regions[i], sh.regions[j];
    ApartIff(a.base, a.size, b.base, b.size);
    ApartIff(a.offset, a.size, b.offset, b.size);
    assert Covers(a.base, a.size, a.base);
  }

  /** A table, whoever wrote it, passes the check if and only if it has at most two regions, each fits, and no two
      share a guest address or a byte of the store. */
  lemma ValidIff(sh: Shared)
    requires BEGIN + sh.store < WORD32
    ensures RegionsValid(sh) <==>
              && |sh.regions| <= 2
              && (forall i | 0 <= i < |sh.regions| :: Fits(sh, sh.regions[i]))
              && (forall i, j | 0 <= j < i < |sh.regions| :: Apart(sh.regions[i], sh.regions[j]))
  {
    forall i | 0 <= i < |sh.regions| ensures RegionOk(sh, i) <==> Fits(sh, sh.regions[i]) {}
    if forall i | 0 <= i < |sh.regions| :: Fits(sh, sh.regions[i]) {
      forall i, j | 0 <= j < i < |sh.regions| ensures PairOk(sh, i, j) <==> Apart(sh.regions[i], sh.regions[j]) {
        PairIsApart(sh, i, j);
      }
    }
  }
}
