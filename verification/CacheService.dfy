/** serviceWindowCache (src/quetzcpu_mmio_sync.cc:269-312): the loop that drives a cache transaction against
    native RAM, hands the rest to the memory system, and posts the big-endian value of a finished read. */
module CacheService {
  import L = LineMath
  import opened WindowCache
  import opened CacheTransactions
  import opened CacheRuns
  import opened WindowDataCacheObject

  /** Where the loop stops: answer posted, request handed to the memory system, or an exception. */
  datatype Stop = Posted(value: nat) | Issued(action: Action) | Thrown

  // ---------------------------------------------------------------- mailbox values

  function BigEndian(bytes: seq<Byte>): nat {
    if bytes == [] then 0 else BigEndian(bytes[..|bytes| - 1]) * 256 + bytes[|bytes| - 1]
  }

  function Pow256(n: nat): nat { if n == 0 then 1 else 256 * Pow256(n - 1) }

  /** MSB-first bytes of the low `size` bytes of a value, as the mailbox poll packs a window write. */
  function PackBigEndian(value: nat, size: nat): (bytes: seq<Byte>)
    ensures |bytes| == size
  {
    if size == 0 then [] else PackBigEndian(value / 256, size - 1) + [value % 256]
  }

  lemma {:induction false} Pow256Positive(n: nat)
    ensures Pow256(n) > 0
  {
    if n > 0 { Pow256Positive(n - 1); }
  }

  /** Cutting a value to one byte more. */
  lemma CutOneMore(value: nat, p: nat)
    requires p > 0
    ensures 256 * p > 0 && value % (256 * p) == (value / 256) % p * 256 + value % 256
  {
    var rest := value / 256;
    var q, r := rest / p, rest % p;
    L.DivMod(rest, p);
    var low: nat := r * 256 + value % 256;
    assert value == 256 * (q * p + r) + value % 256;
    assert q * (256 * p) == 256 * (q * p);
    L.Quotient(q, low, 256 * p);
  }

  /** Unpacking the packed bytes gives the value back, cut to its size. */
  lemma {:induction false} PackedValue(value: nat, size: nat)
    ensures Pow256(size) > 0 && BigEndian(PackBigEndian(value, size)) == value % Pow256(size)
    decreases size
  {
    Pow256Positive(size);
    if size > 0 {
      PackedValue(value / 256, size - 1);
      assert PackBigEndian(value, size)[..size - 1] == PackBigEndian(value / 256, size - 1);
      CutOneMore(value, Pow256(size - 1));
    }
  }

  // ---------------------------------------------------------------- the loop as a function

  predicate InRegion(r: Region, a: nat) { r.base <= a < r.base + r.size }

  predicate IsNative(native: seq<Region>, a: Action) {
    !a.Done? && exists i | 0 <= i < |native| :: InRegion(native[i], a.address)
  }

  function Service(c: Cache, m: Memory, native: seq<Region>): (r: (Cache, Memory, Stop))
    requires Running(c)
    ensures Valid(r.0)
    decreases Cost(c)
  {
    NextKeepsStructure(c);
    var r := Next(c);
    if r.1.Done? then (r.0, m, Posted(BigEndian(r.1.bytes)))
    else if IsNative(native, r.1) then
      NextCost(c, m);
      var (d, m') := Answered(c, m, r);
      Service(d, m', native)
    else (r.0, m, Issued(r.1))
  }

  /** Every native region is one of the cache's regions. */
  predicate NativeRegistered(native: seq<Region>, regions: seq<Region>) {
    forall i | 0 <= i < |native| :: native[i] in regions
  }

  /** A request that starts in a native region stays in it, so the boundary exception is unreachable. */
  lemma RequestStaysInNativeRegion(c: Cache, a: Action, r: Region)
    requires Valid(c) && ActionOk(c, a) && !a.Done? && r in c.regions && InRegion(r, a.address)
    ensures (if a.Read? then a.size else |a.bytes|) <= r.size - (a.address - r.base)
  {
    var n := if a.Read? then a.size else |a.bytes|;
    var j :| 0 <= j < |c.regions| && c.regions[j].base <= a.address
        && a.address + n <= c.regions[j].base + c.regions[j].size;
    var i :| 0 <= i < |c.regions| && c.regions[i] == r;
    if i != j { assert Disjoint(c.regions[if i < j then i else j], c.regions[if i < j then j else i]); }
  }

  /** When the loop posts a value it has run the whole transaction; when it hands a request on, answering it
      and servicing again is still the same transaction. */
  lemma {:induction false} ServiceIsRun(c: Cache, m: Memory, native: seq<Region>)
    requires Running(c)
    ensures (var r := Service(c, m, native);
             match r.2
             case Posted(value) => Run(c, m).cache == r.0 && Run(c, m).memory == r.1
                 && value == BigEndian(Run(c, m).result)
             case Issued(action) =>
               && AwaitsAnswer(r.0, (r.0, action)) && !IsNative(native, action)
               && (var (d, m') := Answered(r.0, r.1, (r.0, action));
                   Run(d, m').cache == Run(c, m).cache && Run(d, m').memory == Run(c, m).memory
                   && Run(d, m').result == Run(c, m).result)
             case Thrown => false)
    decreases Cost(c)
  {
    NextKeepsStructure(c);
    NextKeepsSetup(c);
    if !Next(c).1.Done? {
      RunStep(c, m);
      NextCost(c, m);
      if IsNative(native, Next(c).1) {
        var (d, m') := Answered(c, m, Next(c));
        ServiceIsRun(d, m', native);
      }
    }
  }

  // ---------------------------------------------------------------- the loop itself

  class Ram {
    var bytes: Memory
    constructor (m: Memory)
      ensures bytes == m
    {
      bytes := m;
    }
  }

  /** The native region a request starts in, or none. */
  method FindNative(native: seq<Region>, a: nat) returns (i: nat)
    ensures i <= |native| && (i < |native| ==> InRegion(native[i], a))
    ensures i == |native| ==> forall j | 0 <= j < |native| :: !InRegion(native[j], a)
  {
    i := 0;
    while i < |native|
      invariant i <= |native| && forall j | 0 <= j < i :: !InRegion(native[j], a)
    {
      if native[i].base <= a && a - native[i].base < native[i].size { return; }
      i := i + 1;
    }
  }

  method FoldBigEndian(bytes: seq<Byte>) returns (value: nat)
    ensures value == BigEndian(bytes)
  {
    value := 0;
    for i := 0 to |bytes|
      invariant value == BigEndian(bytes[..i])
    {
      assert bytes[..i + 1][..i] == bytes[..i];
      value := value * 256 + bytes[i];
    }
    assert bytes[..|bytes|] == bytes;
  }

  /** One native request: move the bytes and complete it. */
  method ServeNative(cache: WindowDataCache, ram: Ram, action: Action)
    requires AwaitsAnswer(cache.State(), (cache.State(), action))
    modifies cache, cache.lines, ram
    ensures (cache.State(), ram.bytes) == Answered(old(cache.State()), old(ram.bytes), (old(cache.State()), action))
  {
    ActionInSpace(cache.State(), action);
    var status;
    if action.Read? {
      status := cache.Complete(ram.bytes[action.address..action.address + action.size]);
    } else {
      ram.bytes := Splice(ram.bytes, action.address, action.bytes);
      status := cache.Complete([]);
    }
  }

  lemma ServiceUnfolds(c: Cache, m: Memory, native: seq<Region>)
    requires Running(c)
    ensures (var r := Next(c);
             Valid(r.0) && r.0.regions == c.regions &&
             if r.1.Done? then Service(c, m, native) == (r.0, m, Posted(BigEndian(r.1.bytes)))
             else
               && AwaitsAnswer(r.0, r)
               && (!IsNative(native, r.1) ==> Service(c, m, native) == (r.0, m, Issued(r.1)))
               && (IsNative(native, r.1) ==>
                     var (d, m') := Answered(r.0, m, r);
                     d.regions == c.regions && Service(c, m, native) == Service(d, m', native) && Cost(d) < Cost(c)))
  {
    NextKeepsStructure(c);
    NextKeepsSetup(c);
    if !Next(c).1.Done? { NextCost(c, m); }
  }

  /** The loop terminates, never throws, and leaves cache, RAM and answer as Service says. */
  method ServiceWindowCache(cache: WindowDataCache, ram: Ram, native: seq<Region>) returns (stop: Stop)
    requires Running(cache.State()) && NativeRegistered(native, cache.regions)
    modifies cache, cache.lines, ram
    ensures (cache.State(), ram.bytes, stop) == Service(old(cache.State()), old(ram.bytes), native)
    ensures !stop.Thrown?
  {
    while true
      invariant Running(cache.State()) && NativeRegistered(native, cache.State().regions)
      invariant Service(cache.State(), ram.bytes, native) == Service(old(cache.State()), old(ram.bytes), native)
      decreases Cost(cache.State())
    {
      ghost var c := cache.State();
      ServiceUnfolds(c, ram.bytes, native);
      var status, action := cache.Next();
      if action.Done? {
        var value := FoldBigEndian(action.bytes);
        return Posted(value);
      }
      var i := FindNative(native, action.address);
      if i == |native| { return Issued(action); }
      RequestStaysInNativeRegion(cache.State(), action, native[i]);
      var size := if action.Read? then action.size else |action.bytes|;
      if size > native[i].size - (action.address - native[i].base) { return Thrown; }
      ServeNative(cache, ram, action);
    }
  }

  // ---------------------------------------------------------------- end to end

  function ReadBackRun(address: nat, data: seq<Byte>, between: seq<Op>): seq<Op> {
    [WriteOp(address, data)] + between + [ReadOp(address, |data|)]
  }

  /** No command in between overwrites the bytes. */
  predicate LeavesAlone(between: seq<Op>, address: nat, size: nat) {
    forall i | 0 <= i < |between| :: between[i].WriteOp? ==>
      between[i].address + |between[i].data| <= address || address + size <= between[i].address
  }

  lemma {:induction false} FlatReadsBack(flat: Memory, between: seq<Op>, address: nat, size: nat, data: seq<Byte>)
    requires InSpace(between + [ReadOp(address, size)]) && address + size <= ADDRESS_SPACE
             && flat[address..address + size] == data
    requires LeavesAlone(between, address, size)
    ensures |FlatAll(flat, between + [ReadOp(address, size)]).1| == |between| + 1
    ensures FlatAll(flat, between + [ReadOp(address, size)]).1[|between|] == data
    decreases |between|
  {
    var ops := between + [ReadOp(address, size)];
    if between == [] {
      assert ops[0] == ReadOp(address, size) && ops[1..] == [];
    } else {
      assert ops[0] == between[0] && ops[1..] == between[1..] + [ReadOp(address, size)];
      var flat' := FlatExec(flat, ops[0]).0;
      assert flat'[address..address + size] == flat[address..address + size];
      FlatReadsBack(flat', between[1..], address, size, data);
    }
  }

  lemma FlatWriteReadsBack(flat: Memory, address: nat, data: seq<Byte>, between: seq<Op>)
    requires InSpace(ReadBackRun(address, data, between)) && LeavesAlone(between, address, |data|)
    ensures |FlatAll(flat, ReadBackRun(address, data, between)).1| == |between| + 2
    ensures FlatAll(flat, ReadBackRun(address, data, between)).1[|between| + 1] == data
  {
    var ops := ReadBackRun(address, data, between);
    assert ops[0] == WriteOp(address, data) && ops[1..] == between + [ReadOp(address, |data|)];
    assert InSpace(ops[1..]);
    var flat' := FlatExec(flat, ops[0]).0;
    assert flat'[address..address + |data|] == data;
    FlatReadsBack(flat', between, address, |data|, data);
  }

  /** Writing a value through the mailbox and reading the same bytes back, after any number of other commands that
      do not overwrite them, returns the value cut to its size: across fills, evictions, pushes and safe control
      writes. */
  lemma WriteReadsBack(c: Cache, m: Memory, flat: Memory, address: nat, size: nat, value: nat, between: seq<Op>)
    requires Tracks(c, m, flat) && LeavesAlone(between, address, size)
    requires AllAccepted(c.regions, ReadBackRun(address, PackBigEndian(value, size), between))
    requires AllSafe(c, m, ReadBackRun(address, PackBigEndian(value, size), between))
    ensures Pow256(size) > 0
    ensures BigEndian(ExecAll(c, m, ReadBackRun(address, PackBigEndian(value, size), between)).results[|between| + 1])
              == value % Pow256(size)
  {
    var data := PackBigEndian(value, size);
    RunFromCoherent(c, m, flat, ReadBackRun(address, data, between));
    FlatWriteReadsBack(flat, address, data, between);
    PackedValue(value, size);
  }
}
