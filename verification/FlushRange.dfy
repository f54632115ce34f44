/** The lines flushed before a doorbell (src/quetz_balar_flush_range.h and the issue loop of
    src/quetz_balar_accelerator_port.cc), in 64-bit arithmetic. */
module FlushRange {

  import opened LineMath

  datatype Range = Range(firstLine: nat, end: nat, lineCount: nat)
  datatype Outcome = Refused | Accepted(range: Range)

  function CountLines(span: nat, line: nat): nat
    requires line > 0
  {
    span / line + (if span % line != 0 then 1 else 0)
  }

  /** The check on the last line, in the order the code makes it. */
  predicate LastFits(first: nat, count: nat, line: nat)
    requires line > 0 && count > 0
  {
    var steps := count - 1;
    steps <= Wrap(MAX64 - first) / line && line <= Wrap(MAX64 - Wrap(first + Wrap(steps * line)))
  }

  function Compute(scratch: nat, bytes: nat, line: nat): Outcome {
    if line == 0 || bytes > Wrap(MAX64 - scratch) then Refused
    else
      var first := Wrap(LineOf(scratch, line));
      var end := Wrap(scratch + bytes);
      if bytes == 0 then Accepted(Range(first, end, 0))
      else
        var count := Wrap(CountLines(Wrap(end - first), line));
        if count == 0 || LastFits(first, count, line) then Accepted(Range(first, end, count)) else Refused
  }

  // ---------------------------------------------------------------- the range is exact

  /** The packet starts r bytes into line k and its span is q whole lines and s bytes. */
  lemma LastLineAt(k: nat, r: nat, bytes: nat, q: nat, s: nat, line: nat)
    requires r < line && s < line && bytes > 0 && r + bytes == q * line + s
    ensures (var count := q + (if s != 0 then 1 else 0);
             count >= 1 && k * line + r >= 0
             && LineOf(k * line + r + bytes - 1, line) == k * line + (count - 1) * line)
  {
    Product(k, line);
    if s != 0 {
      Distribute(k, q, line);
      LineOfSum(k + q, s - 1, line);
      assert k * line + r + bytes - 1 == (k + q) * line + (s - 1);
    } else {
      assert q >= 1;
      Distribute(k, q, line);
      Distribute(k, q - 1, line);
      Distribute(q - 1, 1, line);
      LineOfSum(k + (q - 1), line - 1, line);
      assert k * line + r + bytes - 1 == (k + (q - 1)) * line + (line - 1);
    }
  }

  /** How far the last line of a nonempty packet is from its first. */
  lemma LastLine(scratch: nat, bytes: nat, line: nat)
    requires line > 0 && bytes > 0
    ensures (var first := LineOf(scratch, line);
             && first <= scratch
             && (var count := CountLines(scratch + bytes - first, line);
                 && 1 <= count <= scratch + bytes - first + 1
                 && (line == 1 ==> count <= scratch + bytes - first)
                 && LineOf(scratch + bytes - 1, line) == first + (count - 1) * line))
  {
    LineOfBounds(scratch, line);
    DivMod(scratch, line);
    var span: nat := scratch + bytes - LineOf(scratch, line);
    DivMod(span, line);
    Product(span / line, line);
    LastLineAt(scratch / line, scratch % line, bytes, span / line, span % line, line);
  }

  lemma LastFitsExact(first: nat, count: nat, line: nat)
    requires line > 0 && count > 0 && Word(first) && Word(line)
    ensures LastFits(first, count, line) <==> first + (count - 1) * line + line <= MAX64
  {
    var steps: nat, room: nat := count - 1, MAX64 - first;
    DivMod(room, line);
    Product(steps, line);
    if steps < room / line { Multiples(steps, room / line, line); }
    if room / line < steps { Multiples(room / line, steps, line); }
  }

  /** When a packet can be flushed: the lines exist and end inside the address space. */
  predicate Flushable(scratch: nat, bytes: nat, line: nat) {
    line > 0 && scratch + bytes <= MAX64 && (bytes > 0 ==> LineOf(scratch + bytes - 1, line) + line <= MAX64)
  }

  /** The lines of a packet, counted. */
  function LineCount(scratch: nat, bytes: nat, line: nat): nat
    requires line > 0
  {
    if bytes == 0 then 0 else (scratch + bytes - 1) / line - scratch / line + 1
  }

  lemma CountIsLineCount(scratch: nat, bytes: nat, line: nat)
    requires line > 0 && bytes > 0
    ensures LineOf(scratch, line) <= scratch
            && CountLines(scratch + bytes - LineOf(scratch, line), line) == LineCount(scratch, bytes, line)
  {
    LastLine(scratch, bytes, line);
    var count := CountLines(scratch + bytes - LineOf(scratch, line), line);
    Distribute(scratch / line, count - 1, line);
    SameMultiple((scratch + bytes - 1) / line, 0, scratch / line + (count - 1), 0, line);
  }

  /** The computation succeeds exactly on the flushable packets, and then gives the packet's first line and the
      number of lines up to its last; no step of it wraps around. */
  lemma FlushRangeExact(scratch: nat, bytes: nat, line: nat)
    requires Word(scratch) && Word(bytes) && Word(line)
    ensures Compute(scratch, bytes, line) ==
              if Flushable(scratch, bytes, line)
              then Accepted(Range(LineOf(scratch, line), scratch + bytes, LineCount(scratch, bytes, line)))
              else Refused
  {
    if line > 0 && scratch + bytes <= MAX64 {
      LineOfBounds(scratch, line);
      if bytes > 0 {
        var first := LineOf(scratch, line);
        LastLine(scratch, bytes, line);
        CountIsLineCount(scratch, bytes, line);
        LastFitsExact(first, LineCount(scratch, bytes, line), line);
      }
    }
  }

  /** The addresses issued, in order. */
  function Lines(first: nat, line: nat, count: nat): (r: seq<nat>)
    ensures |r| == count && forall i | 0 <= i < count :: r[i] == first + i * line
  {
    seq(count, i => first + i * line)
  }

  predicate Meets(at: nat, line: nat, scratch: nat, bytes: nat) { at < scratch + bytes && scratch < at + line }

  lemma Between(scratch: nat, bytes: nat, line: nat, k: nat)
    requires line > 0 && bytes > 0
    ensures scratch / line <= k <= (scratch + bytes - 1) / line <==>
      k * line < scratch + bytes && scratch < k * line + line
  {
    var a, b := scratch / line, (scratch + bytes - 1) / line;
    DivMod(scratch, line);
    DivMod(scratch + bytes - 1, line);
    if k < a { Multiples(k, a, line); }
    if a < k { Multiples(a, k, line); }
    if b < k { Multiples(b, k, line); }
    if k < b { Multiples(k, b, line); }
  }

  /** The i-th line issued is line number a + i. */
  lemma LineNumber(scratch: nat, line: nat, i: nat)
    requires line > 0
    ensures LineOf(scratch, line) + i * line == (scratch / line + i) * line
  {
    Distribute(scratch / line, i, line);
  }

  lemma LineMet(scratch: nat, bytes: nat, line: nat, at: nat)
    requires line > 0 && bytes > 0
    ensures at in Lines(LineOf(scratch, line), line, LineCount(scratch, bytes, line))
            <==> at % line == 0 && Meets(at, line, scratch, bytes)
  {
    var lines := Lines(LineOf(scratch, line), line, LineCount(scratch, bytes, line));
    var a, k := scratch / line, at / line;
    DivMod(at, line);
    Between(scratch, bytes, line, k);
    if at % line == 0 && Meets(at, line, scratch, bytes) {
      LineNumber(scratch, line, k - a);
      assert lines[k - a] == at;
    }
    if at in lines {
      var i :| 0 <= i < |lines| && lines[i] == at;
      LineNumber(scratch, line, i);
      Quotient(a + i, 0, line);
    }
  }

  /** The lines issued are distinct, and exactly the aligned lines that meet the packet. */
  lemma LinesAreTheOnesMet(scratch: nat, bytes: nat, line: nat)
    requires line > 0
    ensures (var lines := Lines(LineOf(scratch, line), line, LineCount(scratch, bytes, line));
             && (forall i, j | 0 <= i < j < |lines| :: lines[i] < lines[j])
             && (forall at: nat :: at in lines <==> bytes > 0 && at % line == 0 && Meets(at, line, scratch, bytes)))
  {
    var lines := Lines(LineOf(scratch, line), line, LineCount(scratch, bytes, line));
    forall i, j | 0 <= i < j < |lines| ensures lines[i] < lines[j] { Multiples(i, j, line); }
    if bytes > 0 {
      forall at: nat ensures at in lines <==> at % line == 0 && Meets(at, line, scratch, bytes) {
        LineMet(scratch, bytes, line, at);
      }
    }
  }

  /** The issue loop: its overflow check never fires, and it sends the lines of the range in order. */
  method IssueFlushes(scratch: nat, bytes: nat, line: nat) returns (outcome: Outcome, sent: seq<nat>, overflow: bool)
    requires Word(scratch) && Word(bytes) && Word(line)
    ensures outcome == Compute(scratch, bytes, line) && !overflow
    ensures sent == if outcome.Refused? then [] else Lines(outcome.range.firstLine, line, outcome.range.lineCount)
  {
    outcome, sent, overflow := Compute(scratch, bytes, line), [], false;
    if outcome.Refused? { return; }
    var first, count := outcome.range.firstLine, outcome.range.lineCount;
    var at := first;
    var i := 0;
    while i < count
      invariant 0 <= i <= count && sent == Lines(first, line, i) && !overflow
      invariant i < count ==> at == first + i * line
    {
      sent := sent + [at];
      if i + 1 < count {
        LineInside(scratch, bytes, line, i + 1);
        Distribute(i, 1, line);
        if at > Wrap(MAX64 - line) { overflow := true; return; }
        at := Wrap(at + line);
      }
      i := i + 1;
    }
  }

  /** Every line of an accepted range ends inside the address space. */
  lemma LineInside(scratch: nat, bytes: nat, line: nat, i: nat)
    requires Word(scratch) && Word(bytes) && Word(line)
    requires Compute(scratch, bytes, line).Accepted? && i < Compute(scratch, bytes, line).range.lineCount
    ensures Compute(scratch, bytes, line).range.firstLine + i * line + line <= MAX64
  {
    FlushRangeExact(scratch, bytes, line);
    var count := LineCount(scratch, bytes, line);
    LastLine(scratch, bytes, line);
    CountIsLineCount(scratch, bytes, line);
    if i < count - 1 { Multiples(i, count - 1, line); }
  }
}
