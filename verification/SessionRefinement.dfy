/** The shared table against the sequential one, and a trace on which a lookup goes wrong. */
module SessionRefinement {
  import opened Words
  import opened SessionSeqlock
  import Seq = SessionTable

  function Ops(log: seq<Put>): seq<Seq.Op> {
    seq(|log|, i requires 0 <= i < |log| => Seq.PutOp(log[i].index, log[i].addr))
  }

  /** The sequential table after the puts that have ended, in order. */
  function Model(log: seq<Put>): Seq.Table {
    Seq.Run(Ops(log))
  }

  lemma ModelPut(log: seq<Put>, rec: Put)
    ensures Model(log + [rec]) == Seq.Put(Model(log), rec.index, rec.addr)
  {
    var ops := Ops(log + [rec]);
    assert ops[..|ops| - 1] == Ops(log);
    assert ops[|ops| - 1] == Seq.PutOp(rec.index, rec.addr);
  }

  /** The shared slot shows what the sequential entry holds. */
  predicate Agrees(c: Cell, e: Seq.Entry) {
    c.valid == e.valid && c.index == e.senderIndex && c.len <= |c.bytes| && c.bytes[..c.len] == e.addr
  }

  predicate AgreesAt(s: State, q: nat)
    requires Sized(s) && q < Seq.SIZE
  {
    Agrees(s.table[q], Model(s.log)[q])
  }

  ghost predicate AbstractInv(s: State) {
    Sized(s) &&
    match s.w
    case Idle => forall q: nat :: q < Seq.SIZE ==> AgreesAt(s, q)
    case Probe(rec, i) =>
      && (forall q: nat :: q < Seq.SIZE ==> AgreesAt(s, q))
      && i <= Seq.WINDOW && Seq.Vacancy(Model(s.log), rec.index, 0) == Seq.Vacancy(Model(s.log), rec.index, i)
    case At(stage, rec, slot, done) =>
      && slot == Seq.Target(Model(s.log), rec.index)
      && (forall q: nat :: q < Seq.SIZE && (q != slot || stage == Clear) ==> AgreesAt(s, q))
  }

  lemma FinishedPutAgrees(c: Cell, w: Writer, e: Seq.Entry)
    requires w.At? && w.stage == SetValid && Busy(c, w.stage, w.rec, w.done)
    ensures Agrees(WriterStage(c, w.stage, w.rec), Seq.Refilled(e, w.rec.index, w.rec.addr))
  {
  }

  lemma LastStageKeepsAbstract(s: State)
    requires WriterInv(s) && AbstractInv(s) && s.w.At? && s.w.stage == SetValid
    ensures AbstractInv(Next(s, WriterStep))
  {
    var t, q := Next(s, WriterStep), s.w.slot;
    NextSized(s, WriterStep);
    assert SlotOk(s.table[q], s.w, q);
    ModelPut(s.log, s.w.rec);
    FinishedPutAgrees(s.table[q], s.w, Model(s.log)[q]);
    hide Model;
    forall p: nat | p < Seq.SIZE
      ensures AgreesAt(t, p)
    {
      if p != q {
        assert AgreesAt(s, p);
      }
    }
  }

  lemma ProbeKeepsAbstract(s: State)
    requires AbstractInv(s) && s.w.Probe?
    ensures AbstractInv(Next(s, WriterStep))
  {
    hide Model;
    var rec, i := s.w.rec, s.w.i;
    if i < Seq.WINDOW {
      var q := Seq.Slot(rec.index, i);
      assert AgreesAt(s, q);
    }
    var t := Next(s, WriterStep);
    forall p: nat | p < Seq.SIZE
      ensures AgreesAt(t, p)
    {
      assert AgreesAt(s, p);
    }
  }

  lemma NextKeepsAbstract(s: State, m: Move)
    requires WriterInv(s) && AbstractInv(s)
    ensures AbstractInv(Next(s, m))
  {
    NextSized(s, m);
    if m.WriterStep? && s.w.Probe? {
      ProbeKeepsAbstract(s);
    } else if m.WriterStep? && s.w.At? && s.w.stage == SetValid {
      LastStageKeepsAbstract(s);
    } else {
      hide Model;
      var t := Next(s, m);
      forall p: nat | p < Seq.SIZE && (t.w.At? && t.w.stage != Clear ==> p != t.w.slot)
        ensures AgreesAt(t, p)
      {
        assert AgreesAt(s, p);
      }
    }
  }

  lemma {:induction false} RunKeepsAbstract(moves: seq<Move>)
    ensures AbstractInv(Run(moves))
  {
    if moves == [] {
      var s := Start();
      assert Ops([]) == [];
      forall q: nat | q < Seq.SIZE
        ensures AgreesAt(s, q)
      {
      }
    } else {
      RunKeepsAbstract(moves[..|moves| - 1]);
      RunKeepsInv(moves[..|moves| - 1]);
      NextKeepsAbstract(Run(moves[..|moves| - 1]), moves[|moves| - 1]);
    }
  }

  /** Whenever no put is under way, the shared table shows exactly the sequential table after all the puts so far,
      whatever the reader was doing in between. */
  lemma QuietTableIsSequential(moves: seq<Move>, q: nat)
    requires Run(moves).w.Idle? && q < Seq.SIZE
    ensures var s := Run(moves); Agrees(s.table[q], Seq.Run(Ops(s.log))[q])
  {
    RunKeepsAbstract(moves);
    assert AgreesAt(Run(moves), q);
  }

  // ---- two puts during one lookup ----

  lemma Extend(moves: seq<Move>, m: Move)
    ensures Run(moves + [m]) == Next(Run(moves), m)
  {
    assert (moves + [m])[..|moves|] == moves;
  }

  /** The slot an uninterrupted put ends on when the first p slots of its window are taken by others. */
  function PutSlot(index: u32, p: nat): nat {
    Seq.Slot(index, if p < Seq.WINDOW then p else 0)
  }

  predicate TakenByOthers(s: State, index: u32, p: nat)
    requires Sized(s)
  {
    forall i: nat :: i < p ==> s.table[Seq.Slot(index, i)].valid && s.table[Seq.Slot(index, i)].index != index
  }

  lemma ProbeSteps(moves: seq<Move>, rec: Put, p: nat) returns (moves': seq<Move>)
    requires Run(moves).w.Idle? && p <= Seq.WINDOW && TakenByOthers(Run(moves), rec.index, p)
    requires p < Seq.WINDOW ==> !Run(moves).table[Seq.Slot(rec.index, p)].valid
    ensures Run(moves') == Run(moves).(w := At(Clear, rec, PutSlot(rec.index, p), {}))
  {
    moves' := moves + [BeginPut(rec)];
    Extend(moves, BeginPut(rec));
    var i := 0;
    while i < p
      invariant i <= p && Run(moves') == Run(moves).(w := Probe(rec, i))
    {
      Extend(moves', WriterStep);
      moves' := moves' + [WriterStep];
      i := i + 1;
    }
    Extend(moves', WriterStep);
    moves' := moves' + [WriterStep];
  }

  /** Everything but the slot being written and the writer's own position. */
  predicate Framed(s: State, t: State, q: nat) {
    && Sized(s) && Sized(t) && t.r == s.r && q < Seq.SIZE
    && (forall x: nat :: x < Seq.SIZE && x != q ==> t.table[x] == s.table[x])
  }

  /** The first j bytes have been copied in. */
  predicate Copying(s: State, t: State, j: nat)
    requires s.w.At?
  {
    && Framed(s, t, s.w.slot) && t.w.At? && t.w == s.w.(done := t.w.done)
    && (forall k :: 0 <= k < j ==> k in t.w.done)
    && t.table[s.w.slot].puts == s.table[s.w.slot].puts && t.table[s.w.slot].finished == s.table[s.w.slot].finished
  }

  lemma ByteSteps(moves: seq<Move>) returns (moves': seq<Move>)
    requires var s := Run(moves); s.w.At? && s.w.stage == CopyBytes && s.w.slot < Seq.SIZE && s.w.done == {}
    ensures var s, t := Run(moves), Run(moves');
            && Framed(s, t, s.w.slot) && t.w.At? && t.w.slot == s.w.slot && t.w.rec == s.w.rec && t.w.stage == SetLen
            && t.table[s.w.slot].puts == s.table[s.w.slot].puts && t.table[s.w.slot].finished == s.table[s.w.slot].finished
  {
    var s := Run(moves);
    moves' := moves;
    var j := 0;
    while j < |s.w.rec.addr|
      invariant j <= |s.w.rec.addr|
      invariant Copying(s, Run(moves'), j)
    {
      Extend(moves', WriterByte(j));
      moves' := moves' + [WriterByte(j)];
      j := j + 1;
    }
    Extend(moves', WriterStep);
    moves' := moves' + [WriterStep];
  }

  lemma ThreeSteps(moves: seq<Move>) returns (moves': seq<Move>)
    ensures Run(moves') == Next(Next(Next(Run(moves), WriterStep), WriterStep), WriterStep)
  {
    Extend(moves, WriterStep);
    Extend(moves + [WriterStep], WriterStep);
    Extend(moves + [WriterStep] + [WriterStep], WriterStep);
    moves' := moves + [WriterStep] + [WriterStep] + [WriterStep];
  }

  /** A put with no reader step in between. */
  lemma DirectPut(moves: seq<Move>, rec: Put, p: nat) returns (moves': seq<Move>)
    requires Run(moves).w.Idle? && p <= Seq.WINDOW && TakenByOthers(Run(moves), rec.index, p)
    requires p < Seq.WINDOW ==> !Run(moves).table[Seq.Slot(rec.index, p)].valid
    ensures var s, t, q := Run(moves), Run(moves'), PutSlot(rec.index, p);
            && Framed(s, t, q) && t.w.Idle? && t.table[q].puts == s.table[q].puts + [rec] && Quiet(t.table[q])
  {
    var q := PutSlot(rec.index, p);
    var m1 := ProbeSteps(moves, rec, p);
    var m2 := BeforeBytes(m1, q);
    var m3 := ByteSteps(m2);
    moves' := AfterBytes(m3, q);
    RunKeepsInv(moves');
    assert SlotOk(Run(moves').table[q], Run(moves').w, q);
    hide Run, Quiet;
  }

  lemma BeforeBytes(moves: seq<Move>, q: nat) returns (moves': seq<Move>)
    requires var w := Run(moves).w; w.At? && w.stage == Clear && w.slot == q < Seq.SIZE
    ensures var s, t := Run(moves), Run(moves');
            && Framed(s, t, q) && t.w == s.w.(stage := CopyBytes, done := {})
            && t.table[q].puts == s.table[q].puts + [s.w.rec] && t.table[q].finished == s.table[q].finished
  {
    moves' := ThreeSteps(moves);
    hide Run;
  }

  lemma AfterBytes(moves: seq<Move>, q: nat) returns (moves': seq<Move>)
    requires var w := Run(moves).w; w.At? && w.stage == SetLen && w.slot == q < Seq.SIZE
    ensures var s, t := Run(moves), Run(moves'); Framed(s, t, q) && t.w.Idle? && t.table[q].puts == s.table[q].puts
  {
    moves' := ThreeSteps(moves);
    hide Run;
  }

  /** Indices 0 to 3 each in its home slot. */
  lemma FillWindow() returns (moves: seq<Move>)
    ensures var s := Run(moves);
            && s.w.Idle? && s.r.pc == Miss
            && forall i: nat :: i < 4 ==>
                 s.table[i].valid && s.table[i].finished == 1 == |s.table[i].puts| && s.table[i].index as int == i
  {
    hide Run, Next;
    moves := [];
    RunStarts();
    var i := 0;
    while i < 4
      invariant i <= 4 && Run(moves).w.Idle? && Run(moves).r.pc == Miss
      invariant forall q: nat :: i <= q < Seq.SIZE ==> Run(moves).table[q] == EmptyCell()
      invariant forall q: nat :: q < i ==>
                  Quiet(Run(moves).table[q]) && |Run(moves).table[q].puts| == 1 && Run(moves).table[q].index as int == q
    {
      moves := DirectPut(moves, Rec(i as u32, []), 0);
      i := i + 1;
    }
  }

  lemma RunStarts()
    ensures Run([]) == Start()
  {
  }

  /** The first half of the lookup of index 0: slot 0 is valid and holds the index. */
  lemma LookupArrives(moves: seq<Move>) returns (moves': seq<Move>)
    requires var s := Run(moves); s.r.pc == Miss && s.table[0].valid && s.table[0].index == 0
    ensures var s, t := Run(moves), Run(moves');
            && t.table == s.table && t.w == s.w && t.r.pc == ReadSeq && t.r.index == 0 && t.r.i == 0
            && |t.r.base| == Seq.SIZE && t.r.base[0] == s.table[0].finished
  {
    Extend(moves, BeginLookup(0));
    Extend(moves + [BeginLookup(0)], ReaderStep);
    Extend(moves + [BeginLookup(0)] + [ReaderStep], ReaderStep);
    moves' := moves + [BeginLookup(0)] + [ReaderStep] + [ReaderStep];
  }

  /** The counter, the length and a one-byte address are read while the slot is quiet. */
  lemma LookupCopies(moves: seq<Move>) returns (moves': seq<Move>)
    requires var s := Run(moves); s.r.pc == ReadSeq && Here(s.r) == 0 && Quiet(s.table[0]) && s.table[0].len == 1
    ensures var s, t := Run(moves), Run(moves');
            && t.table == s.table && t.w == s.w && t.r.pc == CheckValidAgain && t.r.seq1 == s.table[0].seqno
            && t.r.index == s.r.index && t.r.i == s.r.i && t.r.base == s.r.base
  {
    var m1 := LookupReadsLength(moves);
    var m2 := LookupReadsByte(m1);
    hide Run, Quiet;
    Extend(m2, ReaderStep);
    moves' := m2 + [ReaderStep];
  }

  lemma LookupReadsByte(moves: seq<Move>) returns (moves': seq<Move>)
    requires var s := Run(moves); s.r.pc == CopyOut && Here(s.r) == 0 && s.r.n == 1
    ensures var s, t := Run(moves), Run(moves');
            t.table == s.table && t.w == s.w && t.r == s.r.(pc := ReadSeqAgain, got := t.r.got)
  {
    Extend(moves, ReaderByte(0));
    Extend(moves + [ReaderByte(0)], ReaderStep);
    moves' := moves + [ReaderByte(0)] + [ReaderStep];
    hide Run;
  }

  lemma LookupReadsLength(moves: seq<Move>) returns (moves': seq<Move>)
    requires var s := Run(moves); s.r.pc == ReadSeq && Here(s.r) == 0 && Quiet(s.table[0]) && s.table[0].len == 1
    ensures var s, t := Run(moves), Run(moves');
            && t.table == s.table && t.w == s.w && t.r == s.r.(pc := CopyOut, seq1 := s.table[0].seqno, n := 1, got := map[])
            && s.table[0].seqno % 2 == 0
  {
    Extend(moves, ReaderStep);
    Extend(moves + [ReaderStep], ReaderStep);
    moves' := moves + [ReaderStep] + [ReaderStep];
    hide Run;
  }

  lemma LookupReturns(moves: seq<Move>) returns (moves': seq<Move>)
    requires var s := Run(moves);
             s.r.pc == CheckValidAgain && Here(s.r) == 0 && s.table[0].valid && s.table[0].index == s.r.index
    ensures var s, t := Run(moves), Run(moves'); t.table == s.table && t.r == s.r.(pc := Hit)
  {
    Extend(moves, ReaderStep);
    Extend(moves + [ReaderStep], ReaderStep);
    moves' := moves + [ReaderStep] + [ReaderStep];
    hide Run;
  }

  predicate Shows(c: Cell, rec: Put) {
    c.valid && c.index == rec.index && c.len == |rec.addr| && c.seqno == 2 * |c.puts|
  }

  /** Index 4096, whose window is full, takes slot 0 over. */
  lemma Displace(moves: seq<Move>, rec: Put) returns (moves': seq<Move>)
    requires rec.index as int % Seq.SIZE == 0 && Run(moves).w.Idle? && Run(moves).table[0].index != rec.index
    requires forall i: nat :: i < 4 ==> Run(moves).table[i].valid
    requires forall i: nat :: 1 <= i < 4 ==> Run(moves).table[i].index as int == i
    ensures var s, t := Run(moves), Run(moves');
            && t.w.Idle? && t.r == s.r && (forall i: nat :: 1 <= i < 4 ==> t.table[i] == s.table[i])
            && Quiet(t.table[0]) && t.table[0].puts == s.table[0].puts + [rec] && Shows(t.table[0], rec)
  {
    moves' := DirectPut(moves, rec, 4);
  }

  lemma HitAddress(moves: seq<Move>)
    requires var s := Run(moves); s.r.pc == Hit && Here(s.r) == 0 && s.r.seq1 == 4
    ensures var s := Run(moves); Complete(s.r) && |s.table[0].puts| >= 2 && Address(s.r) == s.table[0].puts[1].addr
    ensures |Run(moves).r.base| == Seq.SIZE
  {
    RunKeepsInv(moves);
  }

  /** Both puts and the lookup between them. */
  lemma MisledTrace() returns (moves: seq<Move>)
    ensures var s := Run(moves);
            && s.r.pc == Hit && s.r.index == 0 && s.r.i == 0 && s.r.seq1 == 4 && |s.r.base| == Seq.SIZE && s.r.base[0] == 1
            && |s.table[0].puts| == 3 && s.table[0].puts[1].index == 4096
  {
    hide Run, Quiet, Next, StepReader, StepWriter;
    moves := FillWindow();
    moves := LookupArrives(moves);
    moves := Displace(moves, Rec(4096, [7]));
    moves := LookupCopies(moves);
    moves := Displace(moves, Rec(0, []));
    moves := LookupReturns(moves);
  }

  /** The bound of one put is exact: with two puts on the slot during one lookup there is an interleaving in which
      the lookup of index 0 answers with the address of index 4096. */
  lemma TwoPutsMislead() returns (moves: seq<Move>)
    ensures var s := Run(moves); var c := s.table[Here(s.r)];
            && s.r.pc == Hit && s.r.index == 0 && Complete(s.r) && |s.r.base| == Seq.SIZE
            && |c.puts| == s.r.base[Here(s.r)] + 2
            && exists k: nat :: k < |c.puts| && c.puts[k].index == 4096 && Address(s.r) == c.puts[k].addr
  {
    moves := MisledTrace();
    hide Run, Address;
    HitAddress(moves);
  }
}
