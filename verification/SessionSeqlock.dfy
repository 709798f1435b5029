/** The session table shared without locks by one writer, running puts, and one reader, running lookups. Every
    load, store and single-byte copy is a step of its own; bytes may be copied in any order. Sequentially
    consistent memory, unbounded sequence counters. */
module SessionSeqlock {
  import opened Words
  import Seq = SessionTable

  /** One put: the index and the address bytes it stores. */
  datatype Rec = Rec(index: u32, addr: seq<u8>)

  type Put = r: Rec | |r.addr| <= Seq.STORAGE witness Rec(0, [])

  /** A slot's shared fields, with two history variables: every put that has begun on the slot, and how many of
      them have ended. */
  datatype Cell = Cell(valid: bool, seqno: nat, index: u32, len: nat, bytes: seq<u8>, puts: seq<Put>, finished: nat)

  datatype Stage = Clear | Odd | SetIndex | CopyBytes | SetLen | Even | SetValid

  datatype Writer = Idle | Probe(rec: Put, i: nat) | At(stage: Stage, rec: Put, slot: nat, done: set<nat>)

  datatype ReaderPc =
    CheckValid | CheckIndex | ReadSeq | ReadLen | CopyOut | ReadSeqAgain | CheckValidAgain | CheckIndexAgain | Hit | Miss

  /** A lookup of `index` at window position i; `base` are the finished counts when it began. */
  datatype Reader = Reader(pc: ReaderPc, index: u32, i: nat, base: seq<nat>, seq1: nat, n: nat, got: map<nat, u8>)

  datatype State = State(table: seq<Cell>, w: Writer, r: Reader, log: seq<Put>)

  /** The scheduler's choices. */
  datatype Move =
    | BeginPut(rec: Put) | WriterStep | WriterByte(j: nat)
    | BeginLookup(index: u32) | ReaderStep | ReaderByte(k: nat)

  // ---- writer ----

  function WriterStage(c: Cell, stage: Stage, rec: Put): Cell {
    match stage
    case Clear => c.(valid := false, puts := c.puts + [rec])
    case Odd => c.(seqno := c.seqno + 1)
    case SetIndex => c.(index := rec.index)
    case CopyBytes => c
    case SetLen => c.(len := |rec.addr|)
    case Even => c.(seqno := c.seqno + 1)
    case SetValid => c.(valid := true, finished := c.finished + 1)
  }

  function Sized(s: State): (ok: bool) {
    |s.table| == Seq.SIZE && forall q :: 0 <= q < Seq.SIZE ==> |s.table[q].bytes| == Seq.STORAGE
  }

  function AfterStage(w: Writer): Writer
    requires w.At?
  {
    match w.stage
    case Clear => w.(stage := Odd)
    case Odd => w.(stage := SetIndex)
    case SetIndex => w.(stage := CopyBytes, done := {})
    case CopyBytes => if forall j :: 0 <= j < |w.rec.addr| ==> j in w.done then w.(stage := SetLen) else w
    case SetLen => w.(stage := Even)
    case Even => w.(stage := SetValid)
    case SetValid => Idle
  }

  function StepWriter(s: State): State
    requires Sized(s)
  {
    match s.w
    case Idle => s
    case Probe(rec, i) =>
      if i >= Seq.WINDOW then s.(w := At(Clear, rec, Seq.Slot(rec.index, 0), {}))
      else
        var q := Seq.Slot(rec.index, i);
        if !s.table[q].valid || s.table[q].index == rec.index then s.(w := At(Clear, rec, q, {}))
        else s.(w := Probe(rec, i + 1))
    case At(stage, rec, q, done) =>
      if q < Seq.SIZE then
        State(s.table[q := WriterStage(s.table[q], stage, rec)], AfterStage(s.w), s.r,
              if stage == SetValid then s.log + [rec] else s.log)
      else s
  }

  function CopyByteIn(s: State, j: nat): State
    requires Sized(s)
  {
    if s.w.At? && s.w.stage == CopyBytes && s.w.slot < Seq.SIZE && j < |s.w.rec.addr| then
      var c := s.table[s.w.slot];
      s.(table := s.table[s.w.slot := c.(bytes := c.bytes[j := s.w.rec.addr[j]])], w := s.w.(done := s.w.done + {j}))
    else s
  }

  // ---- reader ----

  function NextSlot(r: Reader): Reader {
    if r.i + 1 < Seq.WINDOW then r.(pc := CheckValid, i := r.i + 1) else r.(pc := Miss)
  }

  function StepReader(r: Reader, c: Cell): Reader {
    match r.pc
    case CheckValid => if c.valid then r.(pc := CheckIndex) else NextSlot(r)
    case CheckIndex => if c.index == r.index then r.(pc := ReadSeq) else NextSlot(r)
    case ReadSeq => if c.seqno % 2 == 1 then r else r.(pc := ReadLen, seq1 := c.seqno)
    case ReadLen => r.(pc := CopyOut, n := c.len, got := map[])
    case CopyOut => if forall j :: 0 <= j < r.n ==> j in r.got then r.(pc := ReadSeqAgain) else r
    case ReadSeqAgain =>
      if c.seqno == r.seq1 && c.seqno % 2 == 0 then r.(pc := CheckValidAgain) else r.(pc := ReadSeq)
    case CheckValidAgain => if c.valid then r.(pc := CheckIndexAgain) else NextSlot(r)
    case CheckIndexAgain => if c.index == r.index then r.(pc := Hit) else NextSlot(r)
    case Hit => r
    case Miss => r
  }

  function CopyByteOut(r: Reader, c: Cell, j: nat): Reader {
    if r.pc == CopyOut && j < r.n && j < |c.bytes| then r.(got := r.got[j := c.bytes[j]]) else r
  }

  /** The slot the reader is looking at. */
  function Here(r: Reader): (q: nat)
    ensures q < Seq.SIZE
  {
    Seq.Slot(r.index, r.i)
  }

  function Next(s: State, m: Move): State
    requires Sized(s)
  {
    match m
    case BeginPut(rec) => if s.w.Idle? then s.(w := Probe(rec, 0)) else s
    case WriterStep => StepWriter(s)
    case WriterByte(j) => CopyByteIn(s, j)
    case BeginLookup(index) =>
      if s.r.pc == Hit || s.r.pc == Miss then
        s.(r := Reader(CheckValid, index, 0, seq(Seq.SIZE, q requires 0 <= q < Seq.SIZE => s.table[q].finished), 0, 0, map[]))
      else s
    case ReaderStep => s.(r := StepReader(s.r, s.table[Here(s.r)]))
    case ReaderByte(j) => s.(r := CopyByteOut(s.r, s.table[Here(s.r)], j))
  }

  function EmptyCell(): Cell {
    Cell(false, 0, 0, 0, seq(Seq.STORAGE, _ => 0), [], 0)
  }

  function Start(): State {
    State(seq(Seq.SIZE, _ => EmptyCell()), Idle, Reader(Miss, 0, 0, [], 0, 0, map[]), [])
  }

  /** The state after any interleaving of moves. */
  function Run(moves: seq<Move>): (s: State)
    ensures Sized(s)
  {
    if moves == [] then Start()
    else
      NextSized(Run(moves[..|moves| - 1]), moves[|moves| - 1]);
      Next(Run(moves[..|moves| - 1]), moves[|moves| - 1])
  }

  lemma NextSized(s: State, m: Move)
    requires Sized(s)
    ensures Sized(Next(s, m))
  {
  }

  // ---- the writer's invariant, slot by slot ----

  /** The slot's fields are those of the put. */
  predicate Matches(c: Cell, rec: Put) {
    && |c.bytes| == Seq.STORAGE
    && c.index == rec.index && c.len == |rec.addr| && c.bytes[..c.len] == rec.addr
  }

  /** Between puts. */
  predicate Quiet(c: Cell) {
    && |c.bytes| == Seq.STORAGE
    && |c.puts| == c.finished && c.seqno == 2 * c.finished && (c.valid <==> c.finished > 0)
    && (c.finished > 0 ==> Matches(c, c.puts[c.finished - 1]))
    && (c.finished == 0 ==> c.index == 0 && c.len == 0)
  }

  /** In the middle of a put. */
  predicate Busy(c: Cell, stage: Stage, rec: Put, done: set<nat>) {
    && |c.bytes| == Seq.STORAGE
    && |c.puts| == c.finished + 1 && c.puts[c.finished] == rec && !c.valid
    && c.seqno == 2 * c.finished + (if stage == Odd then 0 else if stage == SetValid then 2 else 1)
    && (stage == Odd || stage == SetIndex ==> c.finished > 0 ==> Matches(c, c.puts[c.finished - 1]))
    && (stage == CopyBytes || stage == SetLen || stage == Even || stage == SetValid ==> c.index == rec.index)
    && (stage == CopyBytes ==> forall j :: j in done ==> j < |rec.addr| && c.bytes[j] == rec.addr[j])
    && (stage == SetLen || stage == Even || stage == SetValid ==> c.bytes[..|rec.addr|] == rec.addr)
    && (stage == Even || stage == SetValid ==> c.len == |rec.addr|)
  }

  predicate SlotOk(c: Cell, w: Writer, q: nat) {
    if w.At? && w.slot == q && w.stage != Clear then Busy(c, w.stage, w.rec, w.done) else Quiet(c)
  }

  /** Whenever a slot's counter is even, its fields are those of the put the counter numbers. */
  lemma EvenMeansWhole(c: Cell, w: Writer, q: nat)
    requires SlotOk(c, w, q) && c.seqno % 2 == 0 && c.seqno > 0
    ensures c.seqno / 2 <= |c.puts| && Matches(c, c.puts[c.seqno / 2 - 1])
  {
  }

  lemma ByteKeepsBusy(c: Cell, w: Writer, j: nat)
    requires w.At? && w.stage == CopyBytes && Busy(c, w.stage, w.rec, w.done) && j < |w.rec.addr|
    ensures Busy(c.(bytes := c.bytes[j := w.rec.addr[j]]), w.stage, w.rec, w.done + {j})
  {
  }

  lemma StageKeepsSlot(c: Cell, w: Writer, q: nat)
    requires w.At? && w.slot == q && SlotOk(c, w, q)
    ensures SlotOk(WriterStage(c, w.stage, w.rec), AfterStage(w), q)
  {
    if w.stage == CopyBytes && (forall j :: 0 <= j < |w.rec.addr| ==> j in w.done) {
      assert c.bytes[..|w.rec.addr|] == w.rec.addr;
    }
  }

  // ---- the reader's invariant ----

  /** The index was seen in the slot since the lookup began: if at most one put has touched the slot since, it was
      the index of the put before, or of that one put, which must have got as far as storing it. */
  predicate Seen(c: Cell, b: nat, index: u32) {
    |c.puts| <= b + 1 ==>
      || (1 <= b <= |c.puts| && c.puts[b - 1].index == index)
      || (|c.puts| == b + 1 && c.puts[b].index == index && c.seqno >= 2 * b + 1)
  }

  /** The counter was read after the index was seen: unless the put before the lookup had the index, the counter
      had passed the one put since, which has it. */
  predicate SeenBy(c: Cell, r: Reader, b: nat) {
    |c.puts| <= b + 1 ==>
      || (1 <= b <= |c.puts| && c.puts[b - 1].index == r.index)
      || (|c.puts| == b + 1 && c.puts[b].index == r.index && r.seq1 >= 2 * b + 2)
  }

  /** What has been copied so far belongs to the put numbered by the counter, unless the counter has moved on. */
  predicate Copied(c: Cell, r: Reader) {
    c.seqno == r.seq1 && 2 <= r.seq1 && r.seq1 / 2 <= |c.puts| ==>
      var rec := c.puts[r.seq1 / 2 - 1];
      r.n == |rec.addr| && forall j :: j in r.got ==> j < r.n && r.got[j] == rec.addr[j]
  }

  /** The bytes copied out, in order. */
  function Address(r: Reader): seq<u8>
    requires forall j :: 0 <= j < r.n ==> j in r.got
  {
    seq(r.n, j requires 0 <= j < r.n => r.got[j])
  }

  predicate Complete(r: Reader) { forall j :: 0 <= j < r.n ==> j in r.got }

  /** The copy is whole: all of put number seq1/2. */
  predicate WholeCopy(c: Cell, r: Reader) {
    Complete(r) && 2 <= r.seq1 && r.seq1 / 2 <= |c.puts| && Address(r) == c.puts[r.seq1 / 2 - 1].addr
  }

  predicate Counted(c: Cell, r: Reader, b: nat) {
    r.seq1 % 2 == 0 && 2 <= r.seq1 <= c.seqno && 2 * b <= r.seq1
  }

  /** If at most one put touched the slot, the copy belongs to the index asked for. */
  predicate RightIndex(c: Cell, r: Reader, b: nat) {
    |c.puts| <= b + 1 && 2 <= r.seq1 && r.seq1 / 2 <= |c.puts| ==> c.puts[r.seq1 / 2 - 1].index == r.index
  }

  predicate ReaderOk(c: Cell, r: Reader, b: nat) {
    match r.pc
    case CheckValid => true
    case CheckIndex => c.seqno >= 2
    case ReadSeq => c.seqno >= 2 && Seen(c, b, r.index)
    case ReadLen => Counted(c, r, b) && SeenBy(c, r, b) && Seen(c, b, r.index)
    case CopyOut => Counted(c, r, b) && SeenBy(c, r, b) && Seen(c, b, r.index) && Copied(c, r)
    case ReadSeqAgain => Counted(c, r, b) && SeenBy(c, r, b) && Seen(c, b, r.index) && Copied(c, r) && Complete(r)
    case CheckValidAgain => Counted(c, r, b) && SeenBy(c, r, b) && WholeCopy(c, r)
    case CheckIndexAgain => Counted(c, r, b) && SeenBy(c, r, b) && WholeCopy(c, r)
    case Hit => Counted(c, r, b) && WholeCopy(c, r) && RightIndex(c, r, b)
    case Miss => true
  }

  // ---- every step keeps the invariants ----

  ghost predicate WriterInv(s: State) {
    && Sized(s)
    && (s.w.At? ==> s.w.slot < Seq.SIZE)
    && forall q: nat :: q < Seq.SIZE ==> SlotOk(s.table[q], s.w, q)
  }

  ghost predicate ReaderInv(s: State) {
    Sized(s) && s.r.pc != Miss ==>
      && |s.r.base| == Seq.SIZE && s.r.i < Seq.WINDOW
      && (forall q: nat :: q < Seq.SIZE ==> s.r.base[q] <= s.table[q].finished)
      && ReaderOk(s.table[Here(s.r)], s.r, s.r.base[Here(s.r)])
  }

  lemma NextKeepsWriterInv(s: State, m: Move)
    requires WriterInv(s)
    ensures WriterInv(Next(s, m))
  {
    NextSized(s, m);
    if s.w.At? {
      assert SlotOk(s.table[s.w.slot], s.w, s.w.slot);
    }
    if m.WriterStep? && s.w.At? {
      StageKeepsSlot(s.table[s.w.slot], s.w, s.w.slot);
    } else if m.WriterByte? && s.w.At? && s.w.stage == CopyBytes && m.j < |s.w.rec.addr| {
      ByteKeepsBusy(s.table[s.w.slot], s.w, m.j);
    }
    var t := Next(s, m);
    forall q: nat | q < Seq.SIZE
      ensures SlotOk(t.table[q], t.w, q)
    {
      assert SlotOk(s.table[q], s.w, q);
    }
  }

  /** What a writer step may do to a slot, as far as a reader can care. */
  predicate Later(c: Cell, d: Cell) {
    && c.puts <= d.puts && |d.puts| <= |c.puts| + 1 && c.seqno <= d.seqno && c.finished <= d.finished
    && (|d.puts| > |c.puts| ==> d.seqno <= 2 * |c.puts|)
  }

  lemma LaterKeepsReader(c: Cell, d: Cell, r: Reader, b: nat)
    requires Later(c, d) && b <= c.finished <= |c.puts| && ReaderOk(c, r, b) && c.seqno <= 2 * |c.puts|
    ensures ReaderOk(d, r, b)
  {
  }

  lemma SeenNow(c: Cell, w: Writer, q: nat, b: nat)
    requires SlotOk(c, w, q) && b <= c.finished && c.seqno >= 2
    ensures Seen(c, b, c.index)
  {
  }

  /** A put that is the only one since the lookup began, and whose counter has been reached, has stored its index. */
  lemma FinalIndexDecides(c: Cell, w: Writer, q: nat, r: Reader, b: nat)
    requires SlotOk(c, w, q) && b <= c.finished && Counted(c, r, b) && SeenBy(c, r, b) && c.index == r.index
    ensures RightIndex(c, r, b)
  {
  }

  predicate StillOk(c: Cell, r: Reader, r': Reader, b: nat) {
    r'.pc == CheckValid || r'.pc == Miss || (r'.i == r.i && r'.index == r.index && ReaderOk(c, r', b))
  }

  lemma ReaderStepKeeps(c: Cell, w: Writer, q: nat, r: Reader, b: nat)
    requires SlotOk(c, w, q) && b <= c.finished && ReaderOk(c, r, b)
    ensures StillOk(c, r, StepReader(r, c), b)
  {
    match r.pc
    case ReadLen => ReaderCopies(c, w, q, r, b); hide *;
    case CopyOut => ReaderCopies(c, w, q, r, b); hide *;
    case ReadSeqAgain => ReaderCopies(c, w, q, r, b); hide *;
    case CheckValidAgain => ReaderConfirms(c, w, q, r, b); hide *;
    case CheckIndexAgain => ReaderConfirms(c, w, q, r, b); hide *;
    case _ => ReaderArrives(c, w, q, r, b); hide *;
  }

  lemma ReaderArrives(c: Cell, w: Writer, q: nat, r: Reader, b: nat)
    requires SlotOk(c, w, q) && b <= c.finished && ReaderOk(c, r, b)
    requires r.pc == CheckValid || r.pc == CheckIndex || r.pc == ReadSeq || r.pc == Hit || r.pc == Miss
    ensures StillOk(c, r, StepReader(r, c), b)
  {
    match r.pc
    case CheckIndex => SeenNow(c, w, q, b); hide SlotOk, Matches;
    case ReadSeq => if c.seqno % 2 == 0 { SeqRead(c, w, q, r, b); } hide SlotOk, Seen, SeenBy, Matches;
    case _ =>
  }

  lemma ReaderCopies(c: Cell, w: Writer, q: nat, r: Reader, b: nat)
    requires SlotOk(c, w, q) && b <= c.finished && ReaderOk(c, r, b)
    requires r.pc == ReadLen || r.pc == CopyOut || r.pc == ReadSeqAgain
    ensures StillOk(c, r, StepReader(r, c), b)
  {
    match r.pc
    case ReadLen => LenRead(c, w, q, r, b); hide SlotOk, Seen, SeenBy, Copied;
    case ReadSeqAgain => if c.seqno == r.seq1 { SeqConfirmed(c, w, q, r, b); } hide SlotOk, Seen, Copied, SeenBy, WholeCopy;
    case _ => hide SlotOk, Seen, SeenBy, Copied, Counted;
  }

  lemma ReaderConfirms(c: Cell, w: Writer, q: nat, r: Reader, b: nat)
    requires SlotOk(c, w, q) && b <= c.finished && ReaderOk(c, r, b)
    requires r.pc == CheckValidAgain || r.pc == CheckIndexAgain
    ensures StillOk(c, r, StepReader(r, c), b)
  {
    if r.pc == CheckIndexAgain && c.index == r.index {
      FinalIndexDecides(c, w, q, r, b);
    }
    hide SlotOk, SeenBy, WholeCopy, RightIndex, Counted;
  }

  lemma SeqRead(c: Cell, w: Writer, q: nat, r: Reader, b: nat)
    requires SlotOk(c, w, q) && b <= c.finished && c.seqno >= 2 && Seen(c, b, r.index) && c.seqno % 2 == 0
    ensures var r' := r.(seq1 := c.seqno); Counted(c, r', b) && SeenBy(c, r', b)
  {
  }

  lemma LenRead(c: Cell, w: Writer, q: nat, r: Reader, b: nat)
    requires SlotOk(c, w, q) && Counted(c, r, b)
    ensures Copied(c, r.(n := c.len, got := map[]))
  {
    if c.seqno % 2 == 0 {
      EvenMeansWhole(c, w, q);
    }
  }

  lemma SeqConfirmed(c: Cell, w: Writer, q: nat, r: Reader, b: nat)
    requires SlotOk(c, w, q) && Counted(c, r, b) && Copied(c, r) && Complete(r) && c.seqno == r.seq1
    ensures WholeCopy(c, r)
  {
    EvenMeansWhole(c, w, q);
    assert Address(r) == c.puts[r.seq1 / 2 - 1].addr;
  }

  lemma ReaderByteKeeps(c: Cell, w: Writer, q: nat, r: Reader, j: nat, b: nat)
    requires SlotOk(c, w, q) && ReaderOk(c, r, b)
    ensures ReaderOk(c, CopyByteOut(r, c, j), b)
  {
    if r.pc == CopyOut && j < r.n && j < |c.bytes| && c.seqno % 2 == 0 {
      EvenMeansWhole(c, w, q);
      if c.seqno > 0 && j < c.len {
        assert c.bytes[j] == c.bytes[..c.len][j];
      }
    }
  }

  lemma WriterStageIsLater(c: Cell, w: Writer, q: nat)
    requires w.At? && w.slot == q && SlotOk(c, w, q)
    ensures Later(c, WriterStage(c, w.stage, w.rec))
  {
  }

  lemma SlotBounds(c: Cell, w: Writer, q: nat)
    requires SlotOk(c, w, q)
    ensures c.finished <= |c.puts| && c.seqno <= 2 * |c.puts|
  {
  }

  /** A move by the writer leaves what the reader knows true. */
  lemma WriterMoveKeepsReader(s: State, m: Move)
    requires WriterInv(s) && ReaderInv(s) && (m.BeginPut? || m.WriterStep? || m.WriterByte?)
    ensures ReaderInv(Next(s, m))
  {
    NextSized(s, m);
    var t := Next(s, m);
    if s.r.pc != Miss {
      var q := Here(s.r);
      assert SlotOk(s.table[q], s.w, q);
      SlotBounds(s.table[q], s.w, q);
      if s.w.At? {
        assert SlotOk(s.table[s.w.slot], s.w, s.w.slot);
        if m.WriterStep? {
          WriterStageIsLater(s.table[s.w.slot], s.w, s.w.slot);
        }
      }
      hide SlotOk, ReaderOk;
      assert Later(s.table[q], t.table[q]);
      LaterKeepsReader(s.table[q], t.table[q], s.r, s.r.base[q]);
    }
  }

  lemma BeginLookupOk(s: State, index: u32)
    requires WriterInv(s) && ReaderInv(s)
    ensures ReaderInv(Next(s, BeginLookup(index)))
  {
  }

  lemma ReaderMoveKeepsReader(s: State, m: Move)
    requires WriterInv(s) && ReaderInv(s) && (m.ReaderStep? || m.ReaderByte?)
    ensures ReaderInv(Next(s, m))
  {
    if s.r.pc != Miss {
      var q := Here(s.r);
      assert SlotOk(s.table[q], s.w, q);
      SlotBounds(s.table[q], s.w, q);
      if m.ReaderStep? {
        ReaderStepKeeps(s.table[q], s.w, q, s.r, s.r.base[q]);
      } else {
        ReaderByteKeeps(s.table[q], s.w, q, s.r, m.k, s.r.base[q]);
      }
      CheckValidOk(s.table[q], StepReader(s.r, s.table[q]), s.r.base[q]);
      hide SlotOk, ReaderOk;
    }
  }

  lemma CheckValidOk(c: Cell, r: Reader, b: nat)
    ensures r.pc == CheckValid || r.pc == Miss ==> forall d: Cell, e: nat :: ReaderOk(d, r, e)
  {
  }

  lemma {:induction false} RunKeepsInv(moves: seq<Move>)
    ensures WriterInv(Run(moves)) && ReaderInv(Run(moves))
  {
    if moves != [] {
      var s, m := Run(moves[..|moves| - 1]), moves[|moves| - 1];
      RunKeepsInv(moves[..|moves| - 1]);
      NextKeepsWriterInv(s, m);
      if m.BeginPut? || m.WriterStep? || m.WriterByte? {
        WriterMoveKeepsReader(s, m);
      } else if m.BeginLookup? {
        BeginLookupOk(s, m.index);
      } else {
        ReaderMoveKeepsReader(s, m);
      }
    }
  }

  /** Over every interleaving: an address a lookup returns was stored whole by one single put on the slot, one no
      older than the last put that had ended when the lookup began; and if at most one put has touched the slot
      since then, it was a put of the index asked for. */
  lemma LookupIsNeverTorn(moves: seq<Move>) returns (k: nat)
    requires Run(moves).r.pc == Hit
    ensures var s := Run(moves); var c := s.table[Here(s.r)];
            && Complete(s.r) && k < |c.puts| && Address(s.r) == c.puts[k].addr
            && |s.r.base| == Seq.SIZE && s.r.base[Here(s.r)] <= k + 1
            && (|c.puts| <= s.r.base[Here(s.r)] + 1 ==> c.puts[k].index == s.r.index)
  {
    RunKeepsInv(moves);
    k := Run(moves).r.seq1 / 2 - 1;
  }
}
