/** The level-IRQ mailbox: the simulator posts (level, seq, generation) with three stores
    (src/quetz_mmio_sync.h:46-59) while the bridge scans the slots it polls against its shadows
    (qemu-overlay/quetz_ipc_client.c:271-319). Every step is one shared load or store. */
module IrqMailbox {

  /** Sequence and generation words are 32 bits wide. */
  const WORD: nat := 0x1_0000_0000

  /** `count` is how often seq was bumped; the shared word is count % WORD. */
  datatype Slot = Slot(level: nat, count: nat)

  /** A post in progress: level stored, then seq bumped, then generation bumped. */
  datatype Poster = Resting | LevelStored(slot: nat) | SeqStored

  /** A drain in progress: the generation it loaded, the slot it looks at, and how much output it has left. */
  datatype Drain =
    | Off
    | Scanning(gen: nat, at: nat, room: nat)
    | Reading(gen: nat, at: nat, room: nat)

  /** The slots with index below `polled` are the ones the client scans. `seen` and `seenGen` are its shadows
      and `reported` the last level it was told, initially 0. */
  datatype State = State(slots: seq<Slot>, generation: nat, poster: Poster,
                         polled: nat, seen: seq<nat>, seenGen: nat, reported: seq<nat>, drain: Drain)

  datatype Step =
    | PostLevel(slot: nat, level: nat)
    | PostSeq
    | PostGeneration
    | Begin(room: nat)
    | LoadSeq
    | LoadLevel
    | Finish

  predicate WellFormed(s: State) {
    s.polled <= |s.slots| && |s.seen| == |s.slots| && |s.reported| == |s.slots|
  }

  predicate Enabled(s: State, step: Step) {
    && WellFormed(s)
    && match step {
         case PostLevel(i, _) => s.poster.Resting? && i < |s.slots|
         case PostSeq => s.poster.LevelStored? && s.poster.slot < |s.slots|
         case PostGeneration => s.poster.SeqStored?
         case Begin(room) => s.drain.Off? && room > 0
         case LoadSeq => s.drain.Scanning? && s.drain.at < s.polled
         case LoadLevel => s.drain.Reading? && s.drain.at < s.polled && s.drain.room > 0
         case Finish => s.drain.Scanning? && s.drain.at == s.polled
       }
  }

  function Next(s: State, step: Step): (r: State)
    requires Enabled(s, step)
    ensures WellFormed(r) && r.polled == s.polled && |r.slots| == |s.slots|
  {
    match step
    case PostLevel(i, level) => s.(slots := s.slots[i := s.slots[i].(level := level)], poster := LevelStored(i))
    case PostSeq =>
      var i := s.poster.slot;
      s.(slots := s.slots[i := s.slots[i].(count := s.slots[i].count + 1)], poster := SeqStored)
    case PostGeneration => s.(generation := s.generation + 1, poster := Resting)
    case Begin(room) =>
      // an unmoved generation word skips the whole scan
      if s.generation % WORD == s.seenGen % WORD then s else s.(drain := Scanning(s.generation, 0, room))
    case LoadSeq =>
      var i := s.drain.at;
      if s.slots[i].count % WORD == s.seen[i] % WORD then s.(drain := Scanning(s.drain.gen, i + 1, s.drain.room))
      else s.(seen := s.seen[i := s.slots[i].count], drain := Reading(s.drain.gen, i, s.drain.room))
    case LoadLevel =>
      var i := s.drain.at;
      var told := s.(reported := s.reported[i := s.slots[i].level]);
      // a full output buffer ends the scan and leaves the generation shadow stale
      if s.drain.room == 1 then told.(drain := Off)
      else told.(drain := Scanning(s.drain.gen, i + 1, s.drain.room - 1))
    case Finish => s.(seenGen := s.drain.gen, drain := Off)
  }

  predicate Init(s: State) {
    && WellFormed(s) && s.poster.Resting? && s.drain.Off? && s.generation == s.seenGen == 0
    && forall i | 0 <= i < |s.slots| :: s.slots[i] == Slot(0, 0) && s.seen[i] == 0 && s.reported[i] == 0
  }

  /** Fewer than 2^32 posts have gone by since the generation shadow and the shadow of each polled slot were taken. */
  predicate InWindow(s: State) {
    && WellFormed(s) && s.generation < s.seenGen + WORD
    && forall i | 0 <= i < s.polled :: s.slots[i].count < s.seen[i] + WORD
  }

  // ---------------------------------------------------------------- the invariant

  predicate Caught(s: State, i: nat)
    requires WellFormed(s) && i < |s.slots|
  {
    s.seen[i] == s.slots[i].count
  }

  predicate AllCaught(s: State, n: nat)
    requires WellFormed(s) && n <= |s.slots|
  {
    forall i {:trigger Caught(s, i)} | 0 <= i < n :: Caught(s, i)
  }

  /** The seq shadow is current and the level it stands for was reported, unless either side is mid-way. */
  predicate SlotOk(s: State, i: nat)
    requires WellFormed(s) && i < |s.slots|
  {
    && s.seen[i] <= s.slots[i].count
    && (Caught(s, i) && s.poster != LevelStored(i) && !(s.drain.Reading? && s.drain.at == i) ==>
          s.reported[i] == s.slots[i].level)
  }

  /** No post has touched anything since the generation `gen` was loaded. */
  predicate Still(s: State, gen: nat) { s.generation == gen && s.poster.Resting? }

  predicate DrainOk(s: State)
    requires WellFormed(s)
  {
    match s.drain
    case Off => Still(s, s.seenGen) ==> AllCaught(s, s.polled)
    case Scanning(gen, at, room) =>
      && s.seenGen < gen <= s.generation && at <= s.polled <= |s.slots| && room > 0
      && (Still(s, gen) ==> AllCaught(s, at))
    case Reading(gen, at, room) =>
      && s.seenGen < gen <= s.generation && at < s.polled && room > 0
      && (Still(s, gen) ==> AllCaught(s, at + 1))
  }

  predicate Inv(s: State) {
    && WellFormed(s) && s.seenGen <= s.generation
    && (forall i {:trigger SlotOk(s, i)} | 0 <= i < |s.slots| :: SlotOk(s, i))
    && DrainOk(s)
    && (s.poster.LevelStored? ==> s.poster.slot < |s.slots|)
  }

  /** Within the window, equal words mean equal counts. */
  lemma SameWord(a: nat, b: nat)
    requires b <= a < b + WORD && a % WORD == b % WORD
    ensures a == b
  {
  }

  lemma PostKeeps(s: State, step: Step)
    requires Inv(s) && Enabled(s, step) && (step.PostLevel? || step.PostSeq? || step.PostGeneration?)
    ensures Inv(Next(s, step))
  {
    var n := Next(s, step);
    forall i | 0 <= i < |n.slots| ensures SlotOk(n, i) { assert SlotOk(s, i); }
  }

  lemma LoadSeqKeeps(s: State)
    requires Inv(s) && InWindow(s) && Enabled(s, LoadSeq)
    ensures Inv(Next(s, LoadSeq))
  {
    var n, at := Next(s, LoadSeq), s.drain.at;
    assert SlotOk(s, at);
    if s.slots[at].count % WORD == s.seen[at] % WORD { SameWord(s.slots[at].count, s.seen[at]); }
    forall i | 0 <= i < |n.slots| ensures SlotOk(n, i) { assert SlotOk(s, i); }
    assert Caught(n, at);
    if Still(s, s.drain.gen) {
      forall i | 0 <= i < at + 1 ensures Caught(n, i) { if i < at { assert Caught(s, i); } }
    }
  }

  lemma LoadLevelKeeps(s: State)
    requires Inv(s) && Enabled(s, LoadLevel)
    ensures Inv(Next(s, LoadLevel))
  {
    var n, at := Next(s, LoadLevel), s.drain.at;
    forall i | 0 <= i < |n.slots| ensures SlotOk(n, i) { assert SlotOk(s, i); }
    if Still(s, s.drain.gen) {
      forall i | 0 <= i < at + 1 ensures Caught(n, i) { assert Caught(s, i); }
    }
  }

  lemma EdgeKeeps(s: State, step: Step)
    requires Inv(s) && InWindow(s) && Enabled(s, step) && (step.Begin? || step.Finish?)
    ensures Inv(Next(s, step))
  {
    var n := Next(s, step);
    forall i | 0 <= i < |n.slots| ensures SlotOk(n, i) { assert SlotOk(s, i); }
    if step.Finish? && Still(s, s.drain.gen) {
      forall i | 0 <= i < s.polled ensures Caught(n, i) { assert Caught(s, i); }
    }
  }

  lemma StepKeeps(s: State, step: Step)
    requires Inv(s) && InWindow(s) && Enabled(s, step)
    ensures Inv(Next(s, step))
  {
    match step
    case LoadSeq => LoadSeqKeeps(s);
    case LoadLevel => LoadLevelKeeps(s);
    case Begin(_) => EdgeKeeps(s, step);
    case Finish => EdgeKeeps(s, step);
    case PostLevel(_, _) => PostKeeps(s, step);
    case PostSeq => PostKeeps(s, step);
    case PostGeneration => PostKeeps(s, step);
  }

  // ---------------------------------------------------------------- runs

  predicate Runs(s: State, steps: seq<Step>)
    decreases |steps|
  {
    steps == [] || (Enabled(s, steps[0]) && Runs(Next(s, steps[0]), steps[1..]))
  }

  function After(s: State, steps: seq<Step>): State
    requires Runs(s, steps)
    decreases |steps|
  {
    if steps == [] then s else After(Next(s, steps[0]), steps[1..])
  }

  /** Every state of the run is inside the window. */
  predicate StaysInWindow(s: State, steps: seq<Step>)
    requires Runs(s, steps)
    decreases |steps|
  {
    InWindow(s) && (steps != [] ==> StaysInWindow(Next(s, steps[0]), steps[1..]))
  }

  lemma {:induction false} RunKeeps(s: State, steps: seq<Step>)
    requires Inv(s) && Runs(s, steps) && StaysInWindow(s, steps)
    ensures Inv(After(s, steps)) && InWindow(After(s, steps))
    decreases |steps|
  {
    if steps != [] {
      StepKeeps(s, steps[0]);
      RunKeeps(Next(s, steps[0]), steps[1..]);
    }
  }

  /** The bridge has nothing to do and nobody is mid-way. */
  predicate Settled(s: State) {
    s.drain.Off? && s.poster.Resting? && s.generation % WORD == s.seenGen % WORD
  }

  /** No lost level: in every interleaving of posts with drains, cut short or not, in which no shadow falls
      2^32 posts behind, a settled mailbox has reported the current level of every polled slot. */
  lemma NoLostLevel(s: State, steps: seq<Step>)
    requires Init(s) && Runs(s, steps) && StaysInWindow(s, steps)
    ensures (var t := After(s, steps);
             Settled(t) ==> WellFormed(t) && forall i | 0 <= i < t.polled :: t.reported[i] == t.slots[i].level)
  {
    forall i | 0 <= i < |s.slots| ensures SlotOk(s, i) {}
    RunKeeps(s, steps);
    var t := After(s, steps);
    if Settled(t) {
      SameWord(t.generation, t.seenGen);
      forall i | 0 <= i < t.polled ensures t.reported[i] == t.slots[i].level {
        assert SlotOk(t, i) && Caught(t, i);
      }
    }
  }

  // ---------------------------------------------------------------- bursts of posts, and what they lose

  datatype Post = Post(slot: nat, level: nat)

  function PostSteps(p: Post): seq<Step> { [PostLevel(p.slot, p.level), PostSeq, PostGeneration] }

  /** Complete posts, one after the other, with no drain in between. */
  function Burst(ps: seq<Post>): seq<Step> {
    if ps == [] then [] else Burst(ps[..|ps| - 1]) + PostSteps(ps[|ps| - 1])
  }

  /** How many posts of a burst go to slot i. */
  function PostsTo(ps: seq<Post>, i: nat): nat {
    if ps == [] then 0 else PostsTo(ps[..|ps| - 1], i) + (if ps[|ps| - 1].slot == i then 1 else 0)
  }

  /** The level of slot i after a burst. */
  function LastLevel(ps: seq<Post>, i: nat, level: nat): nat {
    if ps == [] then level
    else if ps[|ps| - 1].slot == i then ps[|ps| - 1].level
    else LastLevel(ps[..|ps| - 1], i, level)
  }

  predicate InRange(ps: seq<Post>, slots: nat) { forall k | 0 <= k < |ps| :: ps[k].slot < slots }

  lemma {:induction false} Concat(s: State, a: seq<Step>, b: seq<Step>)
    requires Runs(s, a) && Runs(After(s, a), b)
    ensures Runs(s, a + b) && After(s, a + b) == After(After(s, a), b)
    decreases |a|
  {
    if a == [] {
      assert a + b == b;
    } else {
      assert (a + b)[0] == a[0] && (a + b)[1..] == a[1..] + b;
      Concat(Next(s, a[0]), a[1..], b);
    }
  }

  lemma Front(s: State, step: Step, rest: seq<Step>)
    requires Enabled(s, step) && Runs(Next(s, step), rest)
    ensures Runs(s, [step] + rest) && After(s, [step] + rest) == After(Next(s, step), rest)
  {
    assert ([step] + rest)[1..] == rest;
  }

  lemma PostEffect(s: State, p: Post)
    requires WellFormed(s) && s.poster.Resting? && p.slot < |s.slots|
    ensures Runs(s, PostSteps(p))
    ensures After(s, PostSteps(p))
         == s.(slots := s.slots[p.slot := Slot(p.level, s.slots[p.slot].count + 1)], generation := s.generation + 1)
  {
    var a := Next(s, PostLevel(p.slot, p.level));
    var b := Next(a, PostSeq);
    Front(b, PostGeneration, []);
    Front(a, PostSeq, [PostGeneration] + []);
    Front(s, PostLevel(p.slot, p.level), [PostSeq] + ([PostGeneration] + []));
    assert PostSteps(p) == [PostLevel(p.slot, p.level)] + ([PostSeq] + ([PostGeneration] + []));
  }

  /** The slot as a burst leaves it. */
  predicate Posted(s: State, ps: seq<Post>, t: State, i: nat)
    requires |t.slots| == |s.slots| && i < |s.slots|
  {
    t.slots[i] == Slot(LastLevel(ps, i, s.slots[i].level), s.slots[i].count + PostsTo(ps, i))
  }

  /** The state after a burst: only the slots and the generation move. */
  lemma {:induction false} BurstEffect(s: State, ps: seq<Post>)
    requires WellFormed(s) && s.poster.Resting? && InRange(ps, |s.slots|)
    ensures Runs(s, Burst(ps))
    ensures (var t := After(s, Burst(ps));
             && t == s.(slots := t.slots, generation := s.generation + |ps|) && |t.slots| == |s.slots|
             && forall i {:trigger Posted(s, ps, t, i)} | 0 <= i < |s.slots| :: Posted(s, ps, t, i))
    decreases |ps|
  {
    if ps != [] {
      var front, p := ps[..|ps| - 1], ps[|ps| - 1];
      BurstEffect(s, front);
      var r := After(s, Burst(front));
      PostEffect(r, p);
      Concat(s, Burst(front), PostSteps(p));
      var t := After(s, Burst(ps));
      forall i | 0 <= i < |s.slots| ensures Posted(s, ps, t, i) { assert Posted(s, front, r, i); }
    }
  }

  lemma SumWord(a: nat, b: nat, n: nat)
    requires a % WORD == b % WORD
    ensures (a + n) % WORD == b % WORD <==> n % WORD == 0
  {
    var q, r, k := a / WORD, a % WORD, n / WORD;
    assert a + n == (q + k) * WORD + (r + n % WORD);
  }

  /** Which words a burst moves. */
  lemma BurstWords(s: State, ps: seq<Post>, i: nat)
    requires WellFormed(s) && Settled(s) && InRange(ps, |s.slots|) && i < s.polled
    ensures Runs(s, Burst(ps))
    ensures (var r := After(s, Burst(ps));
             && WellFormed(r) && r.drain.Off? && r.poster.Resting? && r.polled == s.polled && |r.slots| == |s.slots|
             && r.seenGen == s.seenGen && r.seen == s.seen && r.reported == s.reported
             && r.slots[i].level == LastLevel(ps, i, s.slots[i].level)
             && (r.generation % WORD == r.seenGen % WORD <==> |ps| % WORD == 0)
             && (s.seen[i] % WORD == s.slots[i].count % WORD ==>
                   (r.slots[i].count % WORD == r.seen[i] % WORD <==> PostsTo(ps, i) % WORD == 0)))
  {
    BurstEffect(s, ps);
    assert Posted(s, ps, After(s, Burst(ps)), i);
    SumWord(s.generation, s.seenGen, |ps|);
    if s.seen[i] % WORD == s.slots[i].count % WORD { SumWord(s.slots[i].count, s.seen[i], PostsTo(ps, i)); }
  }

  /** Any burst from a settled mailbox leaves a settled mailbox with a wrong report of a polled slot exactly if the
      number of its posts, to whatever slots, is a multiple of 2^32 and it leaves the slot at another level. */
  lemma BurstHidesLevelIff(s: State, ps: seq<Post>, i: nat)
    requires WellFormed(s) && Settled(s) && InRange(ps, |s.slots|) && i < s.polled && s.reported[i] == s.slots[i].level
    ensures Runs(s, Burst(ps))
    ensures (var t := After(s, Burst(ps));
             && WellFormed(t) && i < |t.slots|
             && (Settled(t) && t.reported[i] != t.slots[i].level
                 <==> |ps| % WORD == 0 && LastLevel(ps, i, s.slots[i].level) != s.slots[i].level))
  {
    BurstWords(s, ps, i);
  }

  /** The loads of a scan from where it stands to its end, while nobody posts. */
  function Scan(s: State): seq<Step>
    requires WellFormed(s) && s.drain.Scanning? && s.drain.at <= s.polled && s.drain.room > s.polled - s.drain.at
    decreases s.polled - s.drain.at
  {
    if s.drain.at == s.polled then [Finish]
    else
      var a := Next(s, LoadSeq);
      if a.drain.Scanning? then [LoadSeq] + Scan(a) else [LoadSeq, LoadLevel] + Scan(Next(a, LoadLevel))
  }

  /** The report of a slot once the scan has passed it: the level if the sequence word has moved, else as it was. */
  predicate Passed(s: State, t: State, i: nat)
    requires WellFormed(s) && |t.reported| == |s.slots| && i < |s.slots|
  {
    t.reported[i] == if s.drain.Scanning? && s.drain.at <= i < s.polled && s.slots[i].count % WORD != s.seen[i] % WORD
                     then s.slots[i].level else s.reported[i]
  }

  lemma {:induction false} ScanEffect(s: State)
    requires WellFormed(s) && s.drain.Scanning? && s.drain.at <= s.polled && s.drain.room > s.polled - s.drain.at
    ensures Runs(s, Scan(s))
    ensures (var t := After(s, Scan(s));
             && t == s.(seen := t.seen, reported := t.reported, seenGen := s.drain.gen, drain := Off)
             && WellFormed(t) && forall i {:trigger Passed(s, t, i)} | 0 <= i < |s.slots| :: Passed(s, t, i))
    decreases s.polled - s.drain.at
  {
    if s.drain.at == s.polled {
      Front(s, Finish, []);
      assert Scan(s) == [Finish] + [];
    } else {
      var a := Next(s, LoadSeq);
      if a.drain.Scanning? {
        ScanEffect(a);
        Front(s, LoadSeq, Scan(a));
        PassedOn(s, a, After(a, Scan(a)));
      } else {
        var n := Next(a, LoadLevel);
        ScanEffect(n);
        Front(a, LoadLevel, Scan(n));
        Front(s, LoadSeq, [LoadLevel] + Scan(n));
        assert [LoadSeq, LoadLevel] + Scan(n) == [LoadSeq] + ([LoadLevel] + Scan(n));
        PassedOn(s, n, After(n, Scan(n)));
      }
    }
  }

  /** One slot further. */
  lemma PassedOn(s: State, n: State, t: State)
    requires WellFormed(s) && s.drain.Scanning? && s.drain.at < s.polled && s.drain.room > 1 && WellFormed(n)
             && WellFormed(t)
    requires n == (var a := Next(s, LoadSeq); if a.drain.Scanning? then a else Next(a, LoadLevel))
             && |t.slots| == |s.slots|
    requires forall i {:trigger Passed(n, t, i)} | 0 <= i < |n.slots| :: Passed(n, t, i)
    ensures forall i {:trigger Passed(s, t, i)} | 0 <= i < |s.slots| :: Passed(s, t, i)
  {
    forall i | 0 <= i < |s.slots| ensures Passed(s, t, i) { assert Passed(n, t, i); }
  }

  /** A drain with room for every polled slot, run to its end. */
  function Drained(s: State, room: nat): seq<Step>
    requires WellFormed(s) && s.drain.Off? && room > s.polled
  {
    var b := Next(s, Begin(room));
    [Begin(room)] + (if b.drain.Scanning? then Scan(b) else [])
  }

  /** A whole drain reports a slot if both words have moved. */
  predicate Told(s: State, t: State, i: nat)
    requires WellFormed(s) && WellFormed(t) && i < |s.slots| == |t.slots|
  {
    t.reported[i] == if s.generation % WORD != s.seenGen % WORD && s.slots[i].count % WORD != s.seen[i] % WORD
                     then s.slots[i].level else s.reported[i]
  }

  lemma DrainEffect(s: State, room: nat)
    requires WellFormed(s) && s.drain.Off? && room > s.polled
    ensures Runs(s, Drained(s, room))
    ensures (var t := After(s, Drained(s, room));
             && WellFormed(t) && t == s.(seen := t.seen, reported := t.reported, seenGen := t.seenGen)
             && t.generation % WORD == t.seenGen % WORD
             && forall i {:trigger Told(s, t, i)} | 0 <= i < s.polled :: Told(s, t, i))
  {
    var b := Next(s, Begin(room));
    if b.drain.Scanning? {
      ScanEffect(b);
      Front(s, Begin(room), Scan(b));
      var t := After(b, Scan(b));
      forall i | 0 <= i < s.polled ensures Told(s, t, i) { assert Passed(b, t, i); }
    } else {
      Front(s, Begin(room), []);
    }
  }

  /** Any burst and then a whole drain, from a settled mailbox whose shadow and report of a polled slot are current:
      the mailbox is settled, and its report wrong exactly if the burst leaves the slot at another level and either
      all its posts together, or those to the slot, are a multiple of 2^32. */
  lemma BurstLosesLevelIff(s: State, ps: seq<Post>, i: nat, room: nat)
    requires WellFormed(s) && Settled(s) && InRange(ps, |s.slots|) && i < s.polled < room
    requires s.reported[i] == s.slots[i].level && s.seen[i] % WORD == s.slots[i].count % WORD
    ensures Runs(s, Burst(ps)) && (var r := After(s, Burst(ps)); WellFormed(r) && r.drain.Off? && r.polled == s.polled)
    ensures (var steps := Burst(ps) + Drained(After(s, Burst(ps)), room);
             && Runs(s, steps)
             && (var t := After(s, steps);
                 && Settled(t) && WellFormed(t) && i < |t.slots|
                 && (t.reported[i] != t.slots[i].level
                     <==> && LastLevel(ps, i, s.slots[i].level) != s.slots[i].level
                          && (|ps| % WORD == 0 || PostsTo(ps, i) % WORD == 0))))
  {
    BurstWords(s, ps, i);
    var r := After(s, Burst(ps));
    DrainEffect(r, room);
    Concat(s, Burst(ps), Drained(r, room));
    assert Told(r, After(r, Drained(r, room)), i);
  }

  // ---------------------------------------------------------------- two bursts from the start

  /** 2^32 posts to one slot hide the level. */
  lemma WrapLosesLevel(s: State)
    requires Init(s) && s.polled > 0
    ensures (var steps := Burst(seq(WORD, _ => Post(0, 1)));
             Runs(s, steps) && (var t := After(s, steps);
                                Settled(t) && WellFormed(t) && |t.slots| > 0 && t.reported[0] != t.slots[0].level))
  {
    BurstHidesLevelIff(s, seq(WORD, _ => Post(0, 1)), 0);
  }

  /** A single post is lost if 2^32 - 1 posts to another slot follow it before the next drain. */
  lemma OthersLoseLevel(s: State)
    requires Init(s) && s.polled > 0 && |s.slots| > 1
    ensures (var steps := Burst([Post(0, 1)] + seq(WORD - 1, _ => Post(1, 0)));
             Runs(s, steps) && (var t := After(s, steps);
                                Settled(t) && WellFormed(t) && |t.slots| > 0 && t.reported[0] != t.slots[0].level))
  {
    LastBefore([Post(0, 1)], Post(1, 0), WORD - 1, 0, 0);
    BurstHidesLevelIff(s, [Post(0, 1)] + seq(WORD - 1, _ => Post(1, 0)), 0);
  }

  lemma {:induction false} LastBefore(ps: seq<Post>, p: Post, n: nat, i: nat, level: nat)
    requires p.slot != i
    ensures LastLevel(ps + seq(n, _ => p), i, level) == LastLevel(ps, i, level)
    decreases n
  {
    var all := ps + seq(n, _ => p);
    if n == 0 {
      assert all == ps;
    } else {
      assert all[..|all| - 1] == ps + seq(n - 1, _ => p);
      LastBefore(ps, p, n - 1, i, level);
    }
  }
}
