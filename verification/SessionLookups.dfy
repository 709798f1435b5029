/** What the answer of a concurrent lookup means: why it may miss, what it says when no put interferes, and that it
    can always end. */
module SessionLookups {
  import opened Words
  import opened Wrappers
  import opened SessionSeqlock
  import opened SessionRefinement
  import Seq = SessionTable

  predicate Ended(r: Reader) { r.pc == Hit || r.pc == Miss }

  /** Move b starts a lookup. */
  predicate Begins(moves: seq<Move>, b: nat)
    requires b < |moves|
  {
    moves[b].BeginLookup? && Ended(Run(moves[..b]).r)
  }

  /** The lookup that is under way, or was the last to end, was started by move b. */
  ghost predicate Latest(moves: seq<Move>, b: nat) {
    b < |moves| && Begins(moves, b) && forall t :: b < t < |moves| ==> !Begins(moves, t)
  }

  predicate Shown(c: Cell, index: u32) { c.valid && c.index == index }

  /** The i-th slot of the index's window in the state before move t. */
  function WindowCell(moves: seq<Move>, t: nat, index: u32, i: nat): Cell
    requires t <= |moves|
  {
    Run(moves[..t]).table[Seq.Slot(index, i)]
  }

  /** In some state since move b the slot did not show the index. */
  ghost predicate OnceAbsent(moves: seq<Move>, b: nat, index: u32, i: nat) {
    exists t: nat :: b < t <= |moves| && !Shown(WindowCell(moves, t, index, i), index)
  }

  lemma AbsentLater(moves: seq<Move>, b: nat, index: u32, i: nat)
    requires moves != [] && OnceAbsent(moves[..|moves| - 1], b, index, i)
    ensures OnceAbsent(moves, b, index, i)
  {
    var front := moves[..|moves| - 1];
    var t: nat :| b < t <= |front| && !Shown(WindowCell(front, t, index, i), index);
    assert front[..t] == moves[..t];
    assert !Shown(WindowCell(moves, t, index, i), index);
  }

  lemma AbsentNow(moves: seq<Move>, b: nat, index: u32, i: nat)
    requires b + 1 < |moves| && !Shown(Run(moves[..|moves| - 1]).table[Seq.Slot(index, i)], index)
    ensures OnceAbsent(moves, b, index, i)
  {
    assert !Shown(WindowCell(moves, |moves| - 1, index, i), index);
  }

  /** The window positions a lookup has left behind. */
  function Passed(r: Reader): nat { if r.pc == Miss then Seq.WINDOW else r.i }

  /** What one reader step does to the place the reader is at. */
  lemma StepPasses(r: Reader, c: Cell)
    requires r.pc == CheckIndex || r.pc == CheckIndexAgain ==> r.i < Seq.WINDOW
    requires !Ended(r) ==> r.i < Seq.WINDOW
    ensures var r' := StepReader(r, c);
            && r'.index == r.index && r'.base == r.base
            && (Passed(r') == Passed(r) || (Passed(r') == Passed(r) + 1 && (!c.valid || c.index != r.index)))
  {
  }

  /** What one move that starts no lookup does to the reader. */
  lemma MovePasses(s: State, m: Move)
    requires Sized(s) && !(m.BeginLookup? && Ended(s.r)) && (!Ended(s.r) ==> s.r.i < Seq.WINDOW)
    ensures var r, r' := s.r, Next(s, m).r;
            && r'.index == r.index && r'.base == r.base && (!Ended(r') ==> r'.i < Seq.WINDOW)
            && (Passed(r') <= Passed(r) ||
                (Passed(r') == Passed(r) + 1 && r.i < Seq.WINDOW && Passed(r) == r.i && !Shown(s.table[Here(r)], r.index)))
  {
    if m.ReaderStep? {
      StepPasses(s.r, s.table[Here(s.r)]);
    }
  }

  lemma LatestBefore(moves: seq<Move>, b: nat)
    requires Latest(moves, b) && b < |moves| - 1
    ensures var front := moves[..|moves| - 1]; Latest(front, b) && front[..b] == moves[..b]
    ensures var m := moves[|moves| - 1]; !(m.BeginLookup? && Ended(Run(moves[..|moves| - 1]).r))
  {
    var front := moves[..|moves| - 1];
    hide Run;
    forall t: nat | b <= t < |front|
      ensures Begins(front, t) == Begins(moves, t)
    {
      assert front[..t] == moves[..t];
    }
    assert !Begins(moves, |moves| - 1);
  }

  /** A lookup keeps its index and starting counts, and has left only slots that at some time since it began did
      not show the index. */
  ghost predicate Tracked(moves: seq<Move>, b: nat)
    requires b < |moves| && moves[b].BeginLookup?
  {
    var r, index := Run(moves).r, moves[b].index;
    && r.index == index && r.base == Counts(Run(moves[..b])) && (!Ended(r) ==> r.i < Seq.WINDOW)
    && forall i: nat :: i < Passed(r) ==> OnceAbsent(moves, b, index, i)
  }

  /** How many puts have ended, slot by slot. */
  function Counts(s: State): seq<nat>
    requires Sized(s)
  {
    seq(Seq.SIZE, q requires 0 <= q < Seq.SIZE => s.table[q].finished)
  }

  lemma LookupStarts(moves: seq<Move>, b: nat)
    requires Latest(moves, b) && b == |moves| - 1
    ensures Tracked(moves, b)
  {
    assert Begins(moves, b);
    var s := Run(moves[..b]);
    assert Run(moves) == Next(s, moves[b]);
    hide Run;
    assert Next(s, moves[b]).r.base == Counts(s);
  }

  lemma {:induction false} LookupTracks(moves: seq<Move>, b: nat)
    requires Latest(moves, b)
    ensures Tracked(moves, b)
  {
    var front, m := moves[..|moves| - 1], moves[|moves| - 1];
    if b == |moves| - 1 {
      LookupStarts(moves, b);
    } else {
      LatestBefore(moves, b);
      LookupTracks(front, b);
      var s := Run(front);
      assert Run(moves) == Next(s, m);
      hide Run, Latest;
      MovePasses(s, m);
      hide Next, OnceAbsent;
      forall i: nat | i < Passed(Run(moves).r)
        ensures OnceAbsent(moves, b, moves[b].index, i)
      {
        if i < Passed(s.r) {
          AbsentLater(moves, b, moves[b].index, i);
        } else {
          AbsentNow(moves, b, moves[b].index, i);
        }
      }
    }
  }

  /** A miss is justified: each of the four window slots was, in some state since the lookup began, invalid or in
      the hands of another index. */
  lemma MissIsJustified(moves: seq<Move>, b: nat, i: nat)
    requires Latest(moves, b) && Run(moves).r.pc == Miss && i < Seq.WINDOW
    ensures exists t: nat :: b < t <= |moves| && !Shown(WindowCell(moves, t, moves[b].index, i), moves[b].index)
  {
    LookupTracks(moves, b);
    assert OnceAbsent(moves, b, moves[b].index, i);
  }

  // ---- lookups no put interferes with ----

  predicate Grows(s: State, t: State, q: nat)
    requires Sized(s) && Sized(t) && q < Seq.SIZE
  {
    s.table[q].puts <= t.table[q].puts && s.table[q].finished <= t.table[q].finished
  }

  lemma {:induction false} CountsGrow(moves: seq<Move>, t: nat, q: nat)
    requires t <= |moves| && q < Seq.SIZE
    ensures Grows(Run(moves[..t]), Run(moves), q)
  {
    if t == |moves| {
      assert moves[..t] == moves;
    } else {
      var front := moves[..|moves| - 1];
      assert front[..t] == moves[..t];
      CountsGrow(front, t, q);
    }
  }

  /** Since move b no put has begun on the window of the index, and none was under way on it. */
  predicate WindowUntouched(moves: seq<Move>, b: nat)
    requires b < |moves| && moves[b].BeginLookup?
  {
    forall i: nat :: i < Seq.WINDOW ==>
      var q := Seq.Slot(moves[b].index, i);
      Run(moves[..b]).table[q].finished == |Run(moves).table[q].puts|
  }

  /** A slot between puts, with the same puts, looks the same. */
  lemma QuietIsFixed(c: Cell, d: Cell, index: u32)
    requires Quiet(c) && Quiet(d) && c.puts == d.puts
    ensures Shown(c, index) == Shown(d, index)
  {
  }

  lemma UntouchedIsQuiet(moves: seq<Move>, b: nat, t: nat, i: nat)
    requires b < |moves| && moves[b].BeginLookup? && WindowUntouched(moves, b) && b <= t <= |moves| && i < Seq.WINDOW
    ensures var c, d := WindowCell(moves, t, moves[b].index, i), WindowCell(moves, |moves|, moves[b].index, i);
            Quiet(c) && Quiet(d) && c.puts == d.puts
  {
    var q := Seq.Slot(moves[b].index, i);
    assert moves[..t][..b] == moves[..b] && moves[..|moves|] == moves;
    CountsGrow(moves[..t], b, q);
    CountsGrow(moves, t, q);
    RunKeepsInv(moves[..t]);
    RunKeepsInv(moves);
    hide Run, Busy, Quiet;
    SlotAtRest(Run(moves[..t]), q);
    SlotAtRest(Run(moves), q);
  }

  lemma SlotAtRest(s: State, q: nat)
    requires WriterInv(s) && q < Seq.SIZE
    ensures s.table[q].finished <= |s.table[q].puts|
    ensures s.table[q].finished == |s.table[q].puts| ==> Quiet(s.table[q])
    ensures s.table[q].finished == |s.table[q].puts| ==> s.w.At? && s.w.slot == q ==> s.w.stage == Clear
  {
    assert SlotOk(s.table[q], s.w, q);
  }

  // ---- the sequential answer ----

  /** The first window slot that shows the index decides what the sequential lookup answers. */
  lemma FirstShownIsFound(t: Seq.Table, index: u32, p: nat)
    requires p <= Seq.WINDOW && forall i: nat :: i < p ==> !Seq.Holds(t[Seq.Slot(index, i)], index)
    requires p < Seq.WINDOW ==> Seq.Holds(t[Seq.Slot(index, p)], index)
    ensures Seq.Lookup(t, index) == if p < Seq.WINDOW then Some(t[Seq.Slot(index, p)].addr) else None
  {
    Seq.ProbeFinds(t, index, 0);
  }

  /** With the window untouched every window slot agrees with the sequential table, put log and all. */
  lemma UntouchedAgrees(moves: seq<Move>, b: nat, i: nat)
    requires b < |moves| && moves[b].BeginLookup? && WindowUntouched(moves, b) && i < Seq.WINDOW
    ensures var s := Run(moves); Agrees(s.table[Seq.Slot(moves[b].index, i)], Model(s.log)[Seq.Slot(moves[b].index, i)])
  {
    UntouchedIsQuiet(moves, b, |moves|, i);
    assert moves[..|moves|] == moves;
    RunKeepsAbstract(moves);
    RunKeepsInv(moves);
    var s, q := Run(moves), Seq.Slot(moves[b].index, i);
    hide Run, Model;
    SlotAtRest(s, q);
    assert AgreesAt(s, q);
  }

  /** A slot of an untouched window that was once without the index still is. */
  lemma StillAbsent(moves: seq<Move>, b: nat, i: nat)
    requires b < |moves| && moves[b].BeginLookup? && WindowUntouched(moves, b) && i < Seq.WINDOW
    requires OnceAbsent(moves, b, moves[b].index, i)
    ensures !Shown(Run(moves).table[Seq.Slot(moves[b].index, i)], moves[b].index)
  {
    var index := moves[b].index;
    var t: nat :| b < t <= |moves| && !Shown(WindowCell(moves, t, index, i), index);
    UntouchedIsQuiet(moves, b, t, i);
    assert moves[..|moves|] == moves;
    hide Run;
    QuietIsFixed(WindowCell(moves, t, index, i), WindowCell(moves, |moves|, index, i), index);
  }

  /** The answer of an ended lookup. */
  function Answer(r: Reader): Option<seq<u8>>
    requires r.pc == Hit ==> Complete(r)
  {
    if r.pc == Hit then Some(Address(r)) else None
  }

  lemma HitShows(moves: seq<Move>, b: nat)
    requires Latest(moves, b) && WindowUntouched(moves, b) && Run(moves).r.pc == Hit
    ensures var s := Run(moves); var c := s.table[Here(s.r)];
            s.r.i < Seq.WINDOW && Shown(c, moves[b].index) && Complete(s.r) && c.len <= |c.bytes| && Address(s.r) == c.bytes[..c.len]
  {
    var k := LookupIsNeverTorn(moves);
    LookupTracks(moves, b);
    RunKeepsInv(moves);
    UntouchedIsQuiet(moves, b, |moves|, Run(moves).r.i);
    assert moves[..|moves|] == moves;
    hide Run, Latest;
  }

  /** A lookup that no put interfered with answers as the sequential lookup does on the table of all puts that have
      ended: the same address, or a miss exactly when that one misses. */
  lemma UndisturbedLookup(moves: seq<Move>, b: nat)
    requires Latest(moves, b) && WindowUntouched(moves, b) && Ended(Run(moves).r)
    ensures var s := Run(moves);
            && (s.r.pc == Hit ==> Complete(s.r))
            && Answer(s.r) == Seq.Lookup(Seq.Run(Ops(s.log)), moves[b].index)
  {
    var s, index := Run(moves), moves[b].index;
    LookupTracks(moves, b);
    var p := Passed(s.r);
    if s.r.pc == Hit {
      HitShows(moves, b);
      UntouchedAgrees(moves, b, p);
    }
    forall i: nat | i < p
      ensures !Seq.Holds(Model(s.log)[Seq.Slot(index, i)], index)
    {
      StillAbsent(moves, b, i);
      UntouchedAgrees(moves, b, i);
    }
    hide Run, Latest;
    FirstShownIsFound(Model(s.log), index, p);
  }

  // ---- a lookup can always end ----

  predicate ByReader(m: Move) { m.ReaderStep? || m.ReaderByte? }

  /** No length in use exceeds the space for an address. */
  predicate Short(s: State) {
    Sized(s) && s.r.n <= Seq.STORAGE && forall q :: 0 <= q < Seq.SIZE ==> s.table[q].len <= Seq.STORAGE
  }

  lemma NextKeepsShort(s: State, m: Move)
    requires Short(s)
    ensures Short(Next(s, m))
  {
    NextSized(s, m);
    var q := Here(s.r);
    assert s.table[q].len <= Seq.STORAGE;
  }

  lemma {:induction false} RunKeepsShort(moves: seq<Move>)
    ensures Short(Run(moves))
  {
    if moves != [] {
      RunKeepsShort(moves[..|moves| - 1]);
      NextKeepsShort(Run(moves[..|moves| - 1]), moves[|moves| - 1]);
    }
  }

  /** The steps left at one slot when the counter does not change: a copy begun under another counter value is
      made once more. */
  function Rank(r: Reader, c: Cell): (k: nat)
    ensures k <= 20
  {
    var again := if c.seqno == r.seq1 then 0 else 10;
    match r.pc
    case CheckValid => 8
    case CheckIndex => 7
    case ReadSeq => 6
    case ReadLen => 5 + again
    case CopyOut => 4 + again
    case ReadSeqAgain => 3 + again
    case CheckValidAgain => 2
    case CheckIndexAgain => 1
    case Hit => 0
    case Miss => 0
  }

  function Left(r: Reader, c: Cell): nat {
    if Ended(r) then 0 else 21 * (if r.i < Seq.WINDOW then Seq.WINDOW - r.i else 0) + Rank(r, c)
  }

  lemma StepNears(r: Reader, c: Cell, c': Cell)
    requires !Ended(r) && r.i < Seq.WINDOW && c.seqno % 2 == 0 && (r.pc == CopyOut ==> Complete(r))
    ensures var r' := StepReader(r, c);
            && (Ended(r') || r'.i < Seq.WINDOW) && r'.index == r.index
            && (r'.i == r.i ==> Left(r', c) < Left(r, c)) && (r'.i != r.i ==> Left(r', c') < Left(r, c))
  {
  }

  /** The reader copies what is left of the address. */
  lemma CopyRest(moves: seq<Move>, n: nat) returns (more: seq<Move>)
    requires var s := Run(moves); s.r.pc == CopyOut && n <= s.r.n <= Seq.STORAGE
    ensures forall m :: m in more ==> ByReader(m)
    ensures var s, t := Run(moves), Run(moves + more);
            t == s.(r := s.r.(got := t.r.got)) && forall j :: 0 <= j < n ==> j in t.r.got
  {
    if n == 0 {
      more := [];
      assert moves + [] == moves;
    } else {
      more := CopyRest(moves, n - 1);
      assert moves + (more + [ReaderByte(n - 1)]) == moves + more + [ReaderByte(n - 1)];
      Extend(moves + more, ReaderByte(n - 1));
      more := more + [ReaderByte(n - 1)];
      hide Run;
    }
  }

  function ToGo(s: State): nat
    requires Sized(s)
  {
    Left(s.r, s.table[Here(s.r)])
  }

  lemma SlotAtRestEven(s: State, q: nat)
    requires WriterInv(s) && q < Seq.SIZE && s.w.Idle?
    ensures s.table[q].seqno % 2 == 0
  {
    assert SlotOk(s.table[q], s.w, q);
  }

  /** With the writer idle, a copy that is complete and one step bring the reader nearer its end. */
  lemma ReaderStepNears(s: State, t: State)
    requires WriterInv(s) && ReaderInv(s) && s.w.Idle? && !Ended(s.r) && Sized(t)
    requires t == s.(r := s.r.(got := t.r.got)) && (s.r.pc == CopyOut ==> Complete(t.r))
    ensures var u := Next(t, ReaderStep); Sized(u) && u.w.Idle? && ToGo(u) < ToGo(s)
  {
    NextSized(t, ReaderStep);
    SlotAtRestEven(s, Here(s.r));
    var u := Next(t, ReaderStep);
    StepNears(t.r, t.table[Here(t.r)], u.table[Here(u.r)]);
    hide StepReader, WriterInv, ReaderInv;
  }

  lemma OneStepNearer(moves: seq<Move>) returns (more: seq<Move>)
    requires Run(moves).w.Idle? && !Ended(Run(moves).r)
    ensures forall m :: m in more ==> ByReader(m)
    ensures Run(moves + more).w.Idle? && ToGo(Run(moves + more)) < ToGo(Run(moves))
  {
    hide Run, Next, ToGo;
    var s := Run(moves);
    RunKeepsShort(moves);
    RunKeepsInv(moves);
    more := [];
    assert moves + [] == moves;
    if s.r.pc == CopyOut {
      more := CopyRest(moves, s.r.n);
    }
    Extend(moves + more, ReaderStep);
    ReaderStepNears(s, Run(moves + more));
    assert moves + (more + [ReaderStep]) == moves + more + [ReaderStep];
    more := more + [ReaderStep];
  }

  /** With the writer idle, reader steps alone bring any lookup to its end. */
  lemma LookupCanEnd(moves: seq<Move>) returns (more: seq<Move>)
    requires Run(moves).w.Idle?
    ensures forall m :: m in more ==> ByReader(m)
    ensures Ended(Run(moves + more).r)
    decreases ToGo(Run(moves))
  {
    hide Run;
    more := [];
    assert moves + [] == moves;
    if !Ended(Run(moves).r) {
      var first := OneStepNearer(moves);
      var rest := LookupCanEnd(moves + first);
      assert moves + (first + rest) == moves + first + rest;
      more := first + rest;
    }
  }
}
