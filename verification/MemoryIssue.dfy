/** Splitting one memory operation into line-sized requests (src/quetz_mem_issue.cc, src/quetz_memory_span.h),
    whatever budget each tick leaves (src/quetz_pipeline_output.cc). */
module MemoryIssue {
  import opened LineMath

  const DATA_CAP: nat := 64
  const WORD32: nat := 0x1_0000_0000

  /** The payload field always holds 64 bytes. */
  datatype Op = Op(isRead: bool, isMmio: bool, addr: nat, size: nat, data: seq<bv8>)

  datatype Piece = Piece(isRead: bool, isMmio: bool, addr: nat, size: nat, data: seq<bv8>)

  predicate OpOk(op: Op) { Word(op.addr) && op.size < WORD32 && |op.data| == DATA_CAP }

  predicate MemorySpanValid(addr: nat, bytes: nat) { bytes == 0 || bytes - 1 <= Wrap(MAX64 - addr) }

  function MemoryChunkSize(addr: nat, remaining: nat, line: nat, limit: nat): nat {
    var bytes := if remaining < limit then remaining else limit;
    if line == 0 then bytes
    else if bytes < line - addr % line then bytes else line - addr % line
  }

  function MemorySlots(addr: nat, bytes: nat, line: nat): nat
    requires line > 0
  {
    if bytes == 0 then 0 else Wrap(1 + Wrap(Wrap(addr % line + bytes) - 1) / line) % WORD32
  }

  /** Bytes that are really sent: a write carries at most the 64 captured ones. */
  function IssueSize(op: Op): nat { if op.isRead || op.size < DATA_CAP then op.size else DATA_CAP }

  predicate SpanOk(op: Op) { MemorySpanValid(op.addr, IssueSize(op)) }

  // ---------------------------------------------------------------- line arithmetic

  lemma Shift(x: nat, line: nat)
    requires line > 0
    ensures (x + line) % line == x % line && (x + line) / line == x / line + 1
  {
    DivMod(x, line);
    Distribute(x / line, 1, line);
    Quotient(x / line + 1, x % line, line);
  }

  /** The chunk sent next, the rest of the access or the rest of the line, counted down line by line. */
  function Chunk(addr: nat, remaining: nat, line: nat): (c: nat)
    ensures c <= remaining && (remaining > 0 ==> c > 0)
    decreases addr
  {
    if line == 0 then remaining
    else if addr >= line then Chunk(addr - line, remaining, line)
    else if remaining < line - addr then remaining else line - addr
  }

  lemma {:induction false} ChunkIs(addr: nat, remaining: nat, line: nat)
    ensures Chunk(addr, remaining, line) == MemoryChunkSize(addr, remaining, line, remaining)
    decreases addr
  {
    if line > 0 {
      if addr < line { Quotient(0, addr, line); }
      else {
        ChunkIs(addr - line, remaining, line);
        Shift(addr - line, line);
      }
    }
  }

  /** An access that fits in its line starts and ends in it. */
  lemma WithinLine(addr: nat, size: nat, line: nat)
    requires line > 0 && size > 0 && Chunk(addr, size, line) == size
    ensures addr / line == (addr + size - 1) / line
  {
    ChunkIs(addr, size, line);
    DivMod(addr, line);
    Quotient(addr / line, addr % line + size - 1, line);
  }

  /** Cutting a chunk off leaves a chunk that fits. */
  lemma {:induction false} ChunkFits(addr: nat, remaining: nat, line: nat)
    ensures Chunk(addr, Chunk(addr, remaining, line), line) == Chunk(addr, remaining, line)
    decreases addr
  {
    if line > 0 && addr >= line { ChunkFits(addr - line, remaining, line); }
  }

  lemma NextLine(addr: nat, line: nat)
    requires line > 0
    ensures (addr + (line - addr % line)) % line == 0
  {
    DivMod(addr, line);
    Distribute(addr / line, 1, line);
    Quotient(addr / line + 1, 0, line);
  }

  /** No step of the slot computation wraps on a valid span. */
  lemma SlotsValue(addr: nat, bytes: nat, line: nat)
    requires line > 0 && bytes > 0 && bytes < WORD32 && addr + bytes - 1 <= MAX64
    ensures MemorySlots(addr, bytes, line) == 1 + (addr % line + bytes - 1) / line
  {
    var r := addr % line;
    DivMod(addr, line);
    Product(addr / line, line);
    var x: nat := r + bytes - 1;
    DivMod(x, line);
    Product(x / line, line);
    if x / line >= bytes {
      // r < line, so the quotient cannot reach bytes
      if bytes < x / line { Multiples(bytes, x / line, line); }
      SumBelowProduct(bytes, line);
    }
    if r + bytes == MAX64 + 1 { WrapBack(); }
  }

  lemma SumBelowProduct(a: nat, line: nat)
    requires a > 0 && line > 0
    ensures a * line >= a + line - 1
  {
    Distribute(a - 1, 1, line);
    Product(a - 1, line);
  }

  lemma WrapBack()
    ensures Wrap(Wrap(MAX64 + 1) - 1) == MAX64
  {
  }

  /** Splitting off the first chunk takes one slot. */
  lemma SlotsSplit(addr: nat, bytes: nat, line: nat)
    requires line > 0 && bytes > 0 && bytes < WORD32 && addr + bytes - 1 <= MAX64
    ensures (var c := Chunk(addr, bytes, line);
             MemorySlots(addr, bytes, line) == 1 + MemorySlots(addr + c, bytes - c, line))
  {
    var c := Chunk(addr, bytes, line);
    ChunkIs(addr, bytes, line);
    SlotsValue(addr, bytes, line);
    if c < bytes {
      NextLine(addr, line);
      SlotsValue(addr + c, bytes - c, line);
      Shift(bytes - c - 1, line);
    } else {
      Quotient(0, addr % line + bytes - 1, line);
    }
  }

  // ---------------------------------------------------------------- where an access is cut

  /** The offsets at which the chunks of an n-byte access at `addr` start, from `from` on, and its end. */
  function Cuts(addr: nat, from: nat, n: nat, line: nat): seq<nat>
    requires from <= n
    decreases n - from
  {
    if from == n then [n] else [from] + Cuts(addr, from + Chunk(addr + from, n - from, line), n, line)
  }

  predicate CutOk(b: seq<nat>, k: nat, addr: nat, n: nat, line: nat)
    requires k + 1 < |b|
  {
    b[k] < n && b[k + 1] == b[k] + Chunk(addr + b[k], n - b[k], line)
  }

  ghost predicate CutsOk(b: seq<nat>, addr: nat, n: nat, line: nat) {
    && |b| > 0 && b[|b| - 1] == n
    && forall k: nat {:trigger CutOk(b, k, addr, n, line)} | k < |b| - 1 :: CutOk(b, k, addr, n, line)
  }

  lemma {:induction false} CutsAreOk(addr: nat, from: nat, n: nat, line: nat) returns (b: seq<nat>)
    requires from <= n
    ensures b == Cuts(addr, from, n, line) && CutsOk(b, addr, n, line) && b[0] == from
    decreases n - from
  {
    if from == n {
      b := [n];
    } else {
      var tail := CutsAreOk(addr, from + Chunk(addr + from, n - from, line), n, line);
      b := [from] + tail;
      CutsCons(from, tail, addr, n, line);
    }
  }

  lemma CutsCons(from: nat, tail: seq<nat>, addr: nat, n: nat, line: nat)
    requires CutsOk(tail, addr, n, line) && from < n && tail[0] == from + Chunk(addr + from, n - from, line)
    ensures CutsOk([from] + tail, addr, n, line)
  {
    var b := [from] + tail;
    forall k: nat | k < |b| - 1 ensures CutOk(b, k, addr, n, line) {
      if k > 0 {
        var j := k - 1;
        assert CutOk(tail, j, addr, n, line);
      }
    }
  }

  /** The k-th chunk, in numbers. */
  lemma CutAt(b: seq<nat>, k: nat, addr: nat, n: nat, line: nat)
    requires CutsOk(b, addr, n, line) && k < |b|
    ensures b[k] <= n && (b[k] == n <==> k == |b| - 1)
    ensures k < |b| - 1 ==> b[k] < b[k + 1] <= n && b[k + 1] - b[k] == Chunk(addr + b[k], n - b[k], line)
  {
    if k < |b| - 1 { assert CutOk(b, k, addr, n, line); }
  }

  lemma CutBounds(b: seq<nat>, k: nat, addr: nat, n: nat, line: nat)
    requires CutsOk(b, addr, n, line) && k < |b|
    ensures b[k] <= n && (b[k] == n <==> k == |b| - 1)
  {
    CutAt(b, k, addr, n, line);
  }

  lemma {:induction false} CutsCount(b: seq<nat>, k: nat, addr: nat, n: nat, line: nat)
    requires CutsOk(b, addr, n, line) && line > 0 && k < |b| && n < WORD32 && addr + n <= MAX64 + 1
    ensures b[k] <= n && |b| - 1 - k == MemorySlots(addr + b[k], n - b[k], line)
    decreases |b| - k
  {
    CutAt(b, k, addr, n, line);
    if k < |b| - 1 {
      SlotsSplit(addr + b[k], n - b[k], line);
      CutsCount(b, k + 1, addr, n, line);
      assert addr + b[k] + (b[k + 1] - b[k]) == addr + b[k + 1];
    }
  }

  // ---------------------------------------------------------------- the requests of an operation

  /** The request for the bytes [from, to) of an operation. */
  function PieceAt(op: Op, from: nat, to: nat): Piece {
    Piece(op.isRead, false, op.addr + from, if from <= to then to - from else 0,
          if !op.isRead && from <= to <= |op.data| then op.data[from..to] else [])
  }

  function MmioPiece(op: Op): Piece
    requires OpOk(op)
  {
    Piece(op.isRead, true, op.addr, IssueSize(op), if op.isRead then [] else op.data[..IssueSize(op)])
  }

  function PiecesOf(op: Op, b: seq<nat>): (ps: seq<Piece>)
    requires |b| > 0
    ensures |ps| == |b| - 1 && forall k {:trigger ps[k]} | 0 <= k < |b| - 1 :: ps[k] == PieceAt(op, b[k], b[k + 1])
  {
    seq(|b| - 1, k requires 0 <= k < |b| - 1 => PieceAt(op, b[k], b[k + 1]))
  }

  /** All requests of an operation, in the order they are sent. */
  function Pieces(op: Op, line: nat): seq<Piece>
    requires OpOk(op)
  {
    if op.size == 0 then [] else if op.isMmio then [MmioPiece(op)]
    else
      var b := Cuts(op.addr, 0, IssueSize(op), line);
      if b == [] then [] else PiecesOf(op, b)
  }

  /** Where in the access the k-th request starts; the size once every one is sent. */
  function OffsetOf(op: Op, line: nat, k: nat): nat {
    if op.isMmio then (if k == 0 then 0 else op.size)
    else
      var b := Cuts(op.addr, 0, IssueSize(op), line);
      if k + 1 < |b| then b[k] else op.size
  }

  /** The cursor stands where the k-th request starts. */
  predicate CursorAt(op: Op, line: nat, offset: nat, k: nat) { offset == OffsetOf(op, line, k) }

  /** A cached operation's requests and cursor, by its cuts. */
  lemma CachedParts(op: Op, line: nat, b: seq<nat>, k: nat)
    requires OpOk(op) && !op.isMmio && op.size > 0 && |b| > 0 && b == Cuts(op.addr, 0, IssueSize(op), line)
    ensures Pieces(op, line) == PiecesOf(op, b) && |Pieces(op, line)| == |b| - 1
    ensures OffsetOf(op, line, k) == if k + 1 < |b| then b[k] else op.size
  {
  }

  /** The cursor starts at zero... */
  lemma CursorStart(op: Op, line: nat)
    requires OpOk(op)
    ensures OffsetOf(op, line, 0) == 0
  {
    if !op.isMmio { var _ := CutsAreOk(op.addr, 0, IssueSize(op), line); }
  }

  /** ... and reaches the size exactly when every request is out. */
  lemma CursorEnd(op: Op, line: nat, k: nat)
    requires OpOk(op) && k <= |Pieces(op, line)|
    ensures OffsetOf(op, line, k) == op.size <==> k == |Pieces(op, line)|
  {
    if !op.isMmio {
      var b := CutsAreOk(op.addr, 0, IssueSize(op), line);
      if k < |b| { CutBounds(b, k, op.addr, IssueSize(op), line); }
    }
  }

  /** The request fits in the line it starts in: see WithinLine. */
  predicate InOneLine(p: Piece, line: nat) { Chunk(p.addr, p.size, line) == p.size }

  /** A nonempty request for its own part of the access, inside one line. */
  predicate PartOf(op: Op, p: Piece, line: nat) {
    var from := p.addr - op.addr;
    && p.size > 0 && InOneLine(p, line) && p.isRead == op.isRead && 0 <= from && from + p.size <= IssueSize(op)
    && (if op.isRead then p.data == [] else from + p.size <= |op.data| && p.data == op.data[from..from + p.size])
  }

  lemma PartIs(op: Op, from: nat, to: nat, line: nat)
    requires OpOk(op) && from < to <= IssueSize(op) && to - from == Chunk(op.addr + from, IssueSize(op) - from, line)
    ensures PartOf(op, PieceAt(op, from, to), line)
  {
    ChunkFits(op.addr + from, IssueSize(op) - from, line);
  }

  predicate Follows(ps: seq<Piece>, k: nat)
    requires k < |ps| - 1
  {
    ps[k + 1].addr == ps[k].addr + ps[k].size
  }

  /** The requests follow each other from one end of the access to the other without gap or overlap. */
  predicate Tiles(op: Op, ps: seq<Piece>, line: nat) {
    && (ps == [] <==> IssueSize(op) == 0)
    && (ps != [] ==> ps[0].addr == op.addr && ps[|ps| - 1].addr + ps[|ps| - 1].size == op.addr + IssueSize(op))
    && (forall k: nat {:trigger Follows(ps, k)} | k < |ps| - 1 :: Follows(ps, k))
    && (forall k | 0 <= k < |ps| :: PartOf(op, ps[k], line))
  }

  lemma PiecesOfTile(op: Op, b: seq<nat>, line: nat)
    requires OpOk(op) && CutsOk(b, op.addr, IssueSize(op), line) && b[0] == 0
    ensures Tiles(op, PiecesOf(op, b), line)
  {
    var ps := PiecesOf(op, b);
    CutAt(b, 0, op.addr, IssueSize(op), line);
    forall k | 0 <= k < |ps| ensures PartOf(op, ps[k], line) && ps[k].addr + ps[k].size == op.addr + b[k + 1] {
      CutAt(b, k, op.addr, IssueSize(op), line);
      PartIs(op, b[k], b[k + 1], line);
    }
  }

  /** A cached operation is split into contiguous, nonempty requests inside one line each, which cover exactly the
      bytes to send and carry exactly the captured payload. */
  lemma PiecesTile(op: Op, line: nat)
    requires OpOk(op) && !op.isMmio
    ensures Tiles(op, Pieces(op, line), line)
  {
    if op.size > 0 {
      var b := CutsAreOk(op.addr, 0, IssueSize(op), line);
      PiecesOfTile(op, b, line);
    }
  }

  /** The slot formula counts the requests of every access that does not wrap. */
  lemma PiecesCount(op: Op, line: nat)
    requires OpOk(op) && SpanOk(op) && !op.isMmio && line > 0
    ensures |Pieces(op, line)| == MemorySlots(op.addr, IssueSize(op), line)
  {
    if op.size > 0 {
      var b := CutsAreOk(op.addr, 0, IssueSize(op), line);
      CutsCount(b, 0, op.addr, IssueSize(op), line);
    }
  }

  lemma SliceSnoc<T>(s: seq<T>, a: nat, b: nat)
    requires a <= b < |s|
    ensures s[a..b + 1] == s[a..b] + [s[b]]
  {
  }

  // ---------------------------------------------------------------- the emitter

  function Min(a: nat, b: nat): nat { if a < b then a else b }

  /** What the link has been sent, and which of it has been answered: the n-th request sent has id n. */
  datatype Link = Link(sent: seq<Piece>, answered: set<nat>)

  predicate LinkOk(l: Link) { forall id | id in l.answered :: id < |l.sent| }

  predicate Outstanding(l: Link, id: nat) { id < |l.sent| && id !in l.answered }

  /** Every id below n answered means at least n answers, and n answers below n mean every id. */
  lemma {:induction false} AllAnswered(n: nat, answered: set<nat>)
    requires forall id | id in answered :: id < n
    ensures |answered| <= n
    ensures |answered| == n <==> forall id: nat | id < n :: id in answered
    decreases n
  {
    if n == 0 {
      assert answered == {};
    } else {
      var rest := answered - {n - 1};
      AllAnswered(n - 1, rest);
      if n - 1 in answered {
        assert |answered| == |rest| + 1;
        assert (forall id: nat | id < n :: id in answered) <==> (forall id: nat | id < n - 1 :: id in rest) by {
          if forall id: nat | id < n :: id in answered {
            forall id: nat | id < n - 1 ensures id in rest { assert id in answered; }
          }
          if forall id: nat | id < n - 1 :: id in rest {
            forall id: nat | id < n ensures id in answered { if id < n - 1 { assert id in rest; } }
          }
        }
      } else {
        assert answered == rest;
      }
    }
  }

  /** Tracks the requests that are out; `pendingCount` is what the pipeline reads. */
  class MemRequestEmitter {
    const line: nat
    var link: Link
    var pendingCount: nat

    ghost predicate Valid() reads this { LinkOk(link) && pendingCount + |link.answered| == |link.sent| }

    constructor (lineSize: nat)
      ensures Valid() && line == lineSize && link == Link([], {})
    {
      line, link, pendingCount := lineSize, Link([], {}), 0;
    }

    method Send(p: Piece)
      requires Valid()
      modifies this
      ensures Valid() && link == old(link).(sent := old(link.sent) + [p])
    {
      link := link.(sent := link.sent + [p]);
      pendingCount := pendingCount + 1;
    }

    /** One window of an operation of which k requests are out: the next ones are sent in order, as many as the
        budget allows, and the offset moves to match. `ok` is false, and nothing is sent, on an access that
        wraps around the address space, which is fatal in the source. */
    method IssueWindow(op: Op, offset: nat, budget: nat, ghost k: nat) returns (ok: bool, offset': nat, count: nat)
      requires Valid() && OpOk(op) && k <= |Pieces(op, line)| && offset == OffsetOf(op, line, k)
      modifies this
      ensures Valid()
      ensures ok == (op.size == 0 || budget == 0 || SpanOk(op))
      ensures count == if ok then Min(budget, |Pieces(op, line)| - k) else 0
      ensures link == old(link).(sent := old(link.sent) + Pieces(op, line)[k..k + count])
      ensures offset' == OffsetOf(op, line, k + count)
      ensures offset' == op.size <==> k + count == |Pieces(op, line)|
    {
      offset', count, ok := offset, 0, true;
      CursorEnd(op, line, k);
      if op.size == 0 || budget == 0 { return; }
      if !MemorySpanValid(op.addr, IssueSize(op)) { ok := false; return; }
      if op.isMmio {
        offset', count := IssueMmio(op, offset);
      } else {
        offset', count := IssueCached(op, offset, budget, k);
      }
    }

    method IssueCached(op: Op, offset: nat, budget: nat, ghost k: nat) returns (offset': nat, count: nat)
      requires Valid() && OpOk(op) && SpanOk(op) && !op.isMmio && op.size > 0 && k <= |Pieces(op, line)|
      requires offset == OffsetOf(op, line, k)
      modifies this
      ensures Valid() && count == Min(budget, |Pieces(op, line)| - k)
      ensures link == old(link).(sent := old(link.sent) + Pieces(op, line)[k..k + count])
      ensures offset' == OffsetOf(op, line, k + count)
      ensures offset' == op.size <==> k + count == |Pieces(op, line)|
    {
      ghost var b := CutsAreOk(op.addr, 0, IssueSize(op), line);
      CachedParts(op, line, b, k);
      offset', count := IssueLoop(op, offset, budget, b, k);
      CachedParts(op, line, b, k + count);
      CursorEnd(op, line, k + count);
    }

    method IssueMmio(op: Op, offset: nat) returns (offset': nat, count: nat)
      requires Valid() && OpOk(op) && op.size > 0 && (offset == 0 || offset == op.size)
      modifies this
      ensures Valid() && offset' == op.size && count == if offset == op.size then 0 else 1
      ensures link == old(link).(sent := old(link.sent) + (if offset == op.size then [] else [MmioPiece(op)]))
    {
      // a completed operation is never issued again
      if offset == op.size { return op.size, 0; }
      Send(MmioPiece(op));
      return op.size, 1;
    }

    /** Sends the i-th request, which starts at `offset`. */
    method IssueOne(op: Op, addr: nat, offset: nat, ghost b: seq<nat>, ghost i: nat) returns (chunk: nat)
      requires Valid() && OpOk(op) && CutsOk(b, op.addr, IssueSize(op), line) && i + 1 < |b|
      requires offset == b[i] < IssueSize(op) && addr == op.addr + offset
      modifies this
      ensures Valid() && b[i] + chunk == b[i + 1] && link == old(link).(sent := old(link.sent) + [PiecesOf(op, b)[i]])
    {
      var remaining := IssueSize(op) - offset;
      CutAt(b, i, op.addr, IssueSize(op), line);
      chunk := MemoryChunkSize(addr, remaining, line, remaining);
      ChunkIs(addr, remaining, line);
      Send(Piece(op.isRead, false, addr, chunk, if op.isRead then [] else op.data[offset..offset + chunk]));
    }

    method IssueLoop(op: Op, offset: nat, budget: nat, ghost b: seq<nat>, ghost k: nat)
      returns (offset': nat, count: nat)
      requires Valid() && OpOk(op) && SpanOk(op) && CutsOk(b, op.addr, IssueSize(op), line) && k < |b|
      requires offset == if k + 1 < |b| then b[k] else op.size
      modifies this
      ensures Valid() && count == Min(budget, |b| - 1 - k)
      ensures link == old(link).(sent := old(link.sent) + PiecesOf(op, b)[k..k + count])
      ensures offset' == if k + count + 1 < |b| then b[k + count] else op.size
    {
      offset', count := offset, 0;
      ghost var i, ps, n := k, PiecesOf(op, b), IssueSize(op);
      var addr := Wrap(op.addr + offset);
      CutBounds(b, k, op.addr, n, line);
      while offset' < IssueSize(op) && count < budget
        invariant Valid() && count <= budget && i == k + count < |b|
        invariant i + 1 < |b| ==> offset' == b[i] < n && addr == op.addr + offset'
        invariant i + 1 == |b| ==> offset' == n || offset' == op.size
        invariant link == old(link).(sent := old(link.sent) + ps[k..i])
        decreases |b| - i
      {
        CutBounds(b, i + 1, op.addr, n, line);
        var chunk := IssueOne(op, addr, offset', b, i);
        SliceSnoc(ps, k, i);
        addr := Wrap(addr + chunk);
        offset' := offset' + chunk;
        count := count + 1;
        i := i + 1;
      }
      if offset' == IssueSize(op) { offset' := op.size; }
    }

    /** `pendingCount` counts exactly the requests not answered yet; a response is matched once. */
    method HandleResponse(id: nat) returns (known: bool)
      requires Valid()
      modifies this
      ensures Valid() && known == Outstanding(old(link), id)
      ensures link == if known then old(link).(answered := old(link.answered) + {id}) else old(link)
    {
      if id >= |link.sent| || id in link.answered { return false; }
      AllAnswered(|link.sent|, link.answered + {id});
      link := link.(answered := link.answered + {id});
      pendingCount := pendingCount - 1;
      known := true;
    }
  }
}
