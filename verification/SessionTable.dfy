/** The session table, used by one thread at a time: an open-addressed table of 4096 slots with a four-slot
    probe window and eviction. Addresses are the stored bytes of a socket address. */
module SessionTable {
  import opened Wrappers
  import opened Words

  const SIZE: nat := 4096
  const WINDOW: nat := 4
  const STORAGE: nat := 128

  datatype Entry = Entry(valid: bool, seqno: u32, senderIndex: u32, peerSlot: int, addr: seq<u8>)

  const FREE := Entry(false, 0, 0, 0, [])

  type Table = t: seq<Entry> | |t| == SIZE witness seq(SIZE, _ => FREE)

  /** The i-th slot of an index's probe window. */
  function Slot(index: u32, i: nat): (s: nat)
    ensures s < SIZE
  {
    (index as int % SIZE + i) % SIZE
  }

  /** The window: four slots of 4096 in a row, going round, from the index modulo 4096 on. */
  lemma WindowSlots(index: u32, i: nat)
    requires i < 4
    ensures WINDOW == 4 && SIZE == 4096 && Slot(index, i) == (index as int + i) % 4096
  {
  }

  predicate Holds(e: Entry, index: u32) { e.valid && e.senderIndex == index }

  predicate Takes(e: Entry, index: u32) { !e.valid || e.senderIndex == index }

  /** The first window position from i on whose slot holds the index, or WINDOW. */
  function Probe(t: Table, index: u32, i: nat): nat
    requires i <= WINDOW
    decreases WINDOW - i
  {
    if i == WINDOW || Holds(t[Slot(index, i)], index) then i else Probe(t, index, i + 1)
  }

  /** The first window position from i on that a put may use, or WINDOW. */
  function Vacancy(t: Table, index: u32, i: nat): nat
    requires i <= WINDOW
    decreases WINDOW - i
  {
    if i == WINDOW || Takes(t[Slot(index, i)], index) then i else Vacancy(t, index, i + 1)
  }

  /** The slot a put writes: a vacancy in the window, else the index's home slot. */
  function Target(t: Table, index: u32): (s: nat)
    ensures s < SIZE
  {
    var i := Vacancy(t, index, 0);
    Slot(index, if i < WINDOW then i else 0)
  }

  function Stored(addr: seq<u8>): seq<u8> {
    if |addr| > STORAGE then addr[..STORAGE] else addr
  }

  function Refilled(e: Entry, index: u32, addr: seq<u8>): Entry {
    Entry(true, ((e.seqno as int + 2) % TWO32) as u32, index,
          if Holds(e, index) then e.peerSlot else -1, Stored(addr))
  }

  function Put(t: Table, index: u32, addr: seq<u8>): Table {
    var s := Target(t, index);
    t[s := Refilled(t[s], index, addr)]
  }

  function Find(t: Table, index: u32): Option<nat> {
    var i := Probe(t, index, 0);
    if i < WINDOW then Some(Slot(index, i)) else None
  }

  function Lookup(t: Table, index: u32): Option<seq<u8>> {
    var f := Find(t, index);
    if f.Some? then Some(t[f.value].addr) else None
  }

  function SetPeer(t: Table, s: nat, expected: u32, peer: int): Table
    requires s < SIZE
  {
    if Holds(t[s], expected) then t[s := t[s].(peerSlot := peer)] else t
  }

  // ---- what every reachable table satisfies ----

  /** How far slot s lies beyond the index's home slot, going round. */
  function Offset(index: u32, s: nat): nat { (s - index as int) % SIZE }

  /** A valid entry lies in its index's window and every earlier slot of that window is in use. */
  ghost predicate Placed(t: Table, s: nat)
    requires s < SIZE
  {
    t[s].valid ==>
      var i := Offset(t[s].senderIndex, s);
      i < WINDOW && forall k: nat :: k < i ==> t[Slot(t[s].senderIndex, k)].valid
  }

  ghost predicate WellFormed(t: Table) {
    && (forall s: nat :: s < SIZE ==> Placed(t, s))
    && (forall s: nat, r: nat :: s < SIZE && r < SIZE && t[s].valid && t[r].valid && t[s].senderIndex == t[r].senderIndex ==> s == r)
  }

  lemma SlotOffset(index: u32, s: nat, i: nat)
    requires s < SIZE && i < WINDOW
    ensures Slot(index, i) == s <==> Offset(index, s) == i
  {
  }

  lemma {:induction false} ProbeFinds(t: Table, index: u32, i: nat)
    requires i <= WINDOW
    ensures var p := Probe(t, index, i);
            && i <= p <= WINDOW
            && (p < WINDOW ==> Holds(t[Slot(index, p)], index))
            && (forall k: nat :: i <= k < p ==> !Holds(t[Slot(index, k)], index))
    decreases WINDOW - i
  {
    if i < WINDOW && !Holds(t[Slot(index, i)], index) {
      ProbeFinds(t, index, i + 1);
    }
  }

  lemma {:induction false} VacancyFinds(t: Table, index: u32, i: nat)
    requires i <= WINDOW
    ensures var p := Vacancy(t, index, i);
            && i <= p <= WINDOW
            && (p < WINDOW ==> Takes(t[Slot(index, p)], index))
            && (forall k: nat :: i <= k < p ==> !Takes(t[Slot(index, k)], index))
    decreases WINDOW - i
  {
    if i < WINDOW && !Takes(t[Slot(index, i)], index) {
      VacancyFinds(t, index, i + 1);
    }
  }

  /** In a well-formed table the probe finds an index exactly where it is stored. */
  lemma FindIsStored(t: Table, index: u32)
    requires WellFormed(t)
    ensures forall s: nat :: s < SIZE && Holds(t[s], index) ==> Find(t, index) == Some(s)
    ensures Find(t, index).Some? ==> Find(t, index).value < SIZE && Holds(t[Find(t, index).value], index)
  {
    ProbeFinds(t, index, 0);
    forall s: nat | s < SIZE && Holds(t[s], index)
      ensures Find(t, index) == Some(s)
    {
      assert Placed(t, s);
      SlotOffset(index, s, Offset(index, s));
    }
  }

  /** A put writes over the index's own entry if it has one, else over a free slot, else over the home slot. */
  lemma TargetCases(t: Table, index: u32)
    requires WellFormed(t)
    ensures var s := Target(t, index);
            && (Find(t, index).Some? ==> s == Find(t, index).value)
            && (t[s].valid && t[s].senderIndex != index ==>
                  s == Slot(index, 0) && forall k: nat :: k < WINDOW ==> t[Slot(index, k)].valid)
    ensures var s := Target(t, index); var i := Offset(index, s);
            i < WINDOW && s == Slot(index, i) && forall k: nat :: k < i ==> t[Slot(index, k)].valid
  {
    VacancyFinds(t, index, 0);
    FindIsStored(t, index);
    var v := Vacancy(t, index, 0);
    SlotOffset(index, Target(t, index), if v < WINDOW then v else 0);
    if Find(t, index).Some? {
      var f := Find(t, index).value;
      assert Placed(t, f);
      SlotOffset(index, f, Offset(index, f));
      var i := Offset(index, f);
      assert Slot(index, i) == f;
      if v < i {
        assert t[Slot(index, v)].valid;
        assert Holds(t[Slot(index, v)], index);
      }
    }
  }

  lemma PutKeepsWellFormed(t: Table, index: u32, addr: seq<u8>)
    requires WellFormed(t)
    ensures WellFormed(Put(t, index, addr))
  {
    TargetCases(t, index);
    FindIsStored(t, index);
    var s, u := Target(t, index), Put(t, index, addr);
    forall r: nat | r < SIZE
      ensures Placed(u, r)
    {
      assert Placed(t, r);
    }
  }

  lemma SetPeerKeepsWellFormed(t: Table, s: nat, expected: u32, peer: int)
    requires WellFormed(t) && s < SIZE
    ensures WellFormed(SetPeer(t, s, expected, peer))
    ensures forall index :: Lookup(SetPeer(t, s, expected, peer), index) == Lookup(t, index)
  {
    var u := SetPeer(t, s, expected, peer);
    forall r: nat | r < SIZE
      ensures Placed(u, r)
    {
      assert Placed(t, r);
    }
    forall index
      ensures Lookup(u, index) == Lookup(t, index)
    {
      FindIsStored(t, index);
      FindIsStored(u, index);
    }
  }

  // ---- a put against the plain map ----

  /** The index a put throws out, if its window is full of others. */
  function Victim(t: Table, index: u32): Option<u32> {
    var e := t[Target(t, index)];
    if Takes(e, index) then None else Some(e.senderIndex)
  }

  /** A put is seen by the next lookup of its own index; every other index keeps its answer, but for one victim
      in the home slot, which is lost exactly when the whole window belongs to other indices. */
  lemma PutUpdatesLookup(t: Table, index: u32, addr: seq<u8>, j: u32)
    requires WellFormed(t)
    ensures var u := Put(t, index, addr);
            Lookup(u, j) == if j == index then Some(Stored(addr))
                            else if Victim(t, index) == Some(j) then None
                            else Lookup(t, j)
    ensures Victim(t, index).Some? <==> forall k: nat :: k < WINDOW ==> t[Slot(index, k)].valid && t[Slot(index, k)].senderIndex != index
  {
    var u, s := Put(t, index, addr), Target(t, index);
    PutKeepsWellFormed(t, index, addr);
    TargetCases(t, index);
    FindIsStored(t, j);
    FindIsStored(u, j);
    VacancyFinds(t, index, 0);
    assert forall r: nat :: r < SIZE && r != s ==> u[r] == t[r];
    if j == index {
      assert Holds(u[s], index);
    } else if Find(t, j).Some? && Find(t, j).value != s {
      assert Holds(u[Find(t, j).value], j);
    }
  }

  datatype Op = PutOp(index: u32, addr: seq<u8>) | PeerOp(slot: nat, expected: u32, peer: int)

  function Apply(t: Table, op: Op): Table {
    match op
    case PutOp(index, addr) => Put(t, index, addr)
    case PeerOp(slot, expected, peer) => if slot < SIZE then SetPeer(t, slot, expected, peer) else t
  }

  /** The table after a run of operations from empty. */
  function Run(ops: seq<Op>): Table {
    if ops == [] then seq(SIZE, _ => FREE) else Apply(Run(ops[..|ops| - 1]), ops[|ops| - 1])
  }

  /** The plain map: the address of the last put of an index. */
  function LatestPut(ops: seq<Op>, index: u32): Option<seq<u8>> {
    if ops == [] then None
    else
      var op := ops[|ops| - 1];
      if op.PutOp? && op.index == index then Some(Stored(op.addr)) else LatestPut(ops[..|ops| - 1], index)
  }

  lemma {:induction false} RunIsWellFormed(ops: seq<Op>)
    ensures WellFormed(Run(ops))
  {
    if ops != [] {
      var rest, op := ops[..|ops| - 1], ops[|ops| - 1];
      RunIsWellFormed(rest);
      if op.PutOp? {
        PutKeepsWellFormed(Run(rest), op.index, op.addr);
      } else if op.slot < SIZE {
        SetPeerKeepsWellFormed(Run(rest), op.slot, op.expected, op.peer);
      }
    }
  }

  /** Over every run: a lookup misses, or answers with the latest put of its index. */
  lemma {:induction false} LookupIsLatestOrMiss(ops: seq<Op>, index: u32)
    ensures Lookup(Run(ops), index) == None || Lookup(Run(ops), index) == LatestPut(ops, index)
  {
    if ops == [] {
      ProbeFinds(Run([]), index, 0);
    } else {
      var rest, op := ops[..|ops| - 1], ops[|ops| - 1];
      LookupIsLatestOrMiss(rest, index);
      RunIsWellFormed(rest);
      if op.PutOp? {
        PutUpdatesLookup(Run(rest), op.index, op.addr, index);
      } else if op.slot < SIZE {
        SetPeerKeepsWellFormed(Run(rest), op.slot, op.expected, op.peer);
      }
    }
  }

  // ---- the peer a session belongs to ----

  /** The peer last assigned to the index since it came into the table, -1 if none has been. */
  function LatestPeer(ops: seq<Op>, index: u32): int {
    if ops == [] then -1
    else
      var rest, op := ops[..|ops| - 1], ops[|ops| - 1];
      match op
      case PutOp(i, _) => if i == index && Find(Run(rest), index).None? then -1 else LatestPeer(rest, index)
      case PeerOp(s, expected, peer) =>
        if expected == index && Find(Run(rest), index) == Some(s) then peer else LatestPeer(rest, index)
  }

  lemma PutKeepsPeers(t: Table, index: u32, addr: seq<u8>, j: u32)
    requires WellFormed(t)
    ensures var u := Put(t, index, addr); Find(u, j).Some? ==>
              var p := u[Find(u, j).value].peerSlot;
              if j == index && Find(t, j).None? then p == -1
              else Find(t, j).Some? && p == t[Find(t, j).value].peerSlot
  {
    var u, s := Put(t, index, addr), Target(t, index);
    PutKeepsWellFormed(t, index, addr);
    TargetCases(t, index);
    FindIsStored(t, j);
    FindIsStored(u, j);
    assert forall r: nat :: r < SIZE && r != s ==> u[r] == t[r];
  }

  lemma SetPeerFinds(t: Table, s: nat, expected: u32, peer: int, j: u32)
    requires WellFormed(t) && s < SIZE
    ensures var u := SetPeer(t, s, expected, peer);
            && Find(u, j) == Find(t, j)
            && (Find(t, j).Some? ==>
                  u[Find(u, j).value].peerSlot
                  == if expected == j && Find(t, j) == Some(s) then peer else t[Find(t, j).value].peerSlot)
  {
    var u := SetPeer(t, s, expected, peer);
    SetPeerKeepsWellFormed(t, s, expected, peer);
    FindIsStored(t, j);
    FindIsStored(u, j);
    if Find(t, j).Some? {
      assert Holds(u[Find(t, j).value], j);
    }
  }

  /** Over every run: a session's peer is the one last assigned to its own index since it came in. What was
      assigned to an evicted session never reaches the session that takes its slot. */
  lemma {:induction false} PeerIsLatest(ops: seq<Op>, index: u32)
    ensures var f := Find(Run(ops), index); f.Some? ==> Run(ops)[f.value].peerSlot == LatestPeer(ops, index)
  {
    if ops == [] {
      ProbeFinds(Run([]), index, 0);
    } else {
      var rest, op := ops[..|ops| - 1], ops[|ops| - 1];
      PeerIsLatest(rest, index);
      RunIsWellFormed(rest);
      if op.PutOp? {
        PutKeepsPeers(Run(rest), op.index, op.addr, index);
      } else if op.slot < SIZE {
        SetPeerFinds(Run(rest), op.slot, op.expected, op.peer, index);
      } else {
        FindIsStored(Run(rest), index);
      }
    }
  }

  /** How many puts have written slot s. */
  function PutsOn(ops: seq<Op>, s: nat): nat {
    if ops == [] then 0
    else
      var rest, op := ops[..|ops| - 1], ops[|ops| - 1];
      PutsOn(rest, s) + if op.PutOp? && Target(Run(rest), op.index) == s then 1 else 0
  }

  /** A slot's counter is twice its number of puts, modulo 2^32. */
  lemma {:induction false} CounterCountsPuts(ops: seq<Op>, s: nat)
    requires s < SIZE
    ensures Run(ops)[s].seqno as int == 2 * PutsOn(ops, s) % TWO32
  {
    if ops != [] {
      var rest, op := ops[..|ops| - 1], ops[|ops| - 1];
      CounterCountsPuts(rest, s);
      CounterStep(Run(rest), op, s);
      TwoMore(PutsOn(rest, s));
      assert Run(ops) == Apply(Run(rest), op);
      hide Run, Apply, Target;
    }
  }

  lemma CounterStep(t: Table, op: Op, s: nat)
    requires s < SIZE
    ensures Apply(t, op)[s].seqno as int ==
              if op.PutOp? && Target(t, op.index) == s then (t[s].seqno as int + 2) % TWO32 else t[s].seqno as int
  {
    hide Target;
  }

  lemma TwoMore(n: nat)
    ensures (2 * n % TWO32 + 2) % TWO32 == 2 * (n + 1) % TWO32
  {
  }

  // ---- addresses ----

  const AF_INET: nat := 2
  const AF_INET6: nat := 10

  function Family(a: seq<u8>): nat
    requires |a| >= 2
  {
    a[0] as int + 256 * a[1] as int
  }

  /** The address is long enough for the fields its family has. */
  predicate Complete(a: seq<u8>) {
    && |a| >= 2
    && (Family(a) == AF_INET ==> |a| >= 8)
    && (Family(a) == AF_INET6 ==> |a| >= 28)
  }

  /** Same family and the same port and address; addresses of unknown families never compare equal. */
  predicate AddrEqual(a: seq<u8>, b: seq<u8>)
    requires Complete(a) && Complete(b)
  {
    if Family(a) != Family(b) then false
    else if Family(a) == AF_INET then a[2..4] == b[2..4] && a[4..8] == b[4..8]
    else if Family(a) == AF_INET6 then a[2..4] == b[2..4] && a[24..28] == b[24..28] && a[8..24] == b[8..24]
    else false
  }

  // ---- the table itself ----

  class Sessions {
    const entries: array<Entry>

    constructor ()
      ensures fresh(entries) && entries.Length == SIZE && entries[..] == Run([])
    {
      entries := new Entry[SIZE](_ => FREE);
      new;
      assert entries[..] == seq(SIZE, _ => FREE);
    }

    ghost predicate Valid()
      reads this, entries
    {
      entries.Length == SIZE && WellFormed(entries[..]) && forall s :: 0 <= s < SIZE ==> entries[s].seqno % 2 == 0
    }

    function View(): Table
      requires entries.Length == SIZE
      reads this, entries
    {
      entries[..]
    }

    /** The writer's steps on the slot it chose: invalid, odd, index, address, peer slot, even, valid. */
    method Fill(s: nat, index: u32, addr: seq<u8>, preservePeer: bool)
      requires entries.Length == SIZE && s < SIZE && preservePeer == Holds(entries[s], index)
      modifies entries
      ensures View() == old(View()[s := Refilled(entries[s], index, addr)])
    {
      ghost var t := View();
      entries[s] := entries[s].(valid := false);
      entries[s] := entries[s].(seqno := ((entries[s].seqno as int + 1) % TWO32) as u32);
      entries[s] := entries[s].(senderIndex := index);
      entries[s] := entries[s].(addr := Stored(addr));
      if !preservePeer {
        entries[s] := entries[s].(peerSlot := -1);
      }
      entries[s] := entries[s].(seqno := ((entries[s].seqno as int + 1) % TWO32) as u32);
      entries[s] := entries[s].(valid := true);
      assert View() == t[s := entries[s]];
    }

    /** The probe of a put, and whether the slot it ends on already belongs to the index. */
    method ChooseSlot(index: u32) returns (s: nat, preservePeer: bool)
      requires entries.Length == SIZE
      ensures s == Target(View(), index) && preservePeer == Holds(entries[s], index)
    {
      var slot := index as int % SIZE;
      var i := 0;
      while i < WINDOW
        invariant 0 <= i <= WINDOW
        invariant Vacancy(View(), index, 0) == Vacancy(View(), index, i)
        invariant i > 0 ==> !Takes(entries[slot], index)
      {
        s := (slot + i) % SIZE;
        var wasValid, current := entries[s].valid, entries[s].senderIndex;
        if !wasValid || current == index {
          return s, wasValid && current == index;
        }
        i := i + 1;
      }
      return slot, false;
    }

    method SessionPut(index: u32, addr: seq<u8>)
      requires Valid()
      modifies entries
      ensures Valid()
      ensures View() == Put(old(View()), index, addr)
    {
      PutKeepsWellFormed(View(), index, addr);
      hide WellFormed, Target;
      var s, preservePeer := ChooseSlot(index);
      Fill(s, index, addr, preservePeer);
    }

    method SessionGetEntry(index: u32) returns (r: Option<nat>)
      requires entries.Length == SIZE
      ensures r == Find(View(), index)
    {
      var slot := index as int % SIZE;
      var i := 0;
      while i < WINDOW
        invariant 0 <= i <= WINDOW
        invariant Probe(View(), index, 0) == Probe(View(), index, i)
      {
        var s := (slot + i) % SIZE;
        if entries[s].valid && entries[s].senderIndex == index {
          return Some(s);
        }
        i := i + 1;
      }
      return None;
    }

    /** A consistent copy of a slot's address: with no writer about, the first attempt succeeds. */
    method CopyAddr(s: nat) returns (addr: seq<u8>)
      requires entries.Length == SIZE && s < SIZE && entries[s].seqno % 2 == 0
      ensures addr == entries[s].addr
    {
      var done := false;
      addr := [];
      while !done
        invariant done ==> addr == entries[s].addr
        decreases if done then 0 else 1
      {
        var seq1 := entries[s].seqno;
        if seq1 % 2 == 0 {
          addr := entries[s].addr;
          var seq2 := entries[s].seqno;
          done := seq1 == seq2 && seq2 % 2 == 0;
        }
      }
    }

    method SessionLookup(index: u32) returns (slot: Option<nat>, addr: seq<u8>)
      requires Valid()
      ensures slot == Find(View(), index)
      ensures slot.Some? ==> Lookup(View(), index) == Some(addr)
    {
      var home := index as int % SIZE;
      var i := 0;
      while i < WINDOW
        invariant 0 <= i <= WINDOW
        invariant Probe(View(), index, 0) == Probe(View(), index, i)
      {
        var s := (home + i) % SIZE;
        if entries[s].valid && entries[s].senderIndex == index {
          addr := CopyAddr(s);
          if entries[s].valid && entries[s].senderIndex == index {
            return Some(s), addr;
          }
        }
        i := i + 1;
      }
      return None, [];
    }

    method SetPeerSlotIfIndex(entry: Option<nat>, expected: u32, peer: int)
      requires entries.Length == SIZE && (entry.Some? ==> entry.value < SIZE)
      modifies entries
      ensures View() == if entry.Some? then SetPeer(old(View()), entry.value, expected, peer) else old(View())
    {
      if entry.None? { return; }
      var s := entry.value;
      if !entries[s].valid { return; }
      if entries[s].senderIndex != expected { return; }
      ghost var t := View();
      entries[s] := entries[s].(peerSlot := peer);
      assert View() == t[s := entries[s]];
    }

    /** Succeeds exactly when some entry is in use and every other one in use has an address equal to it;
        answers with the lowest slot in use. */
    method FindSoleEntryWithAddr() returns (slot: Option<nat>, addr: seq<u8>)
      requires Valid() && forall s :: 0 <= s < SIZE && entries[s].valid ==> Complete(entries[s].addr)
      ensures slot.Some? ==>
                && slot.value < SIZE && entries[slot.value].valid && addr == entries[slot.value].addr
                && (forall r :: 0 <= r < slot.value ==> !entries[r].valid)
                && (forall r :: slot.value < r < SIZE && entries[r].valid ==> AddrEqual(addr, entries[r].addr))
      ensures slot.None? ==>
                || (forall r :: 0 <= r < SIZE ==> !entries[r].valid)
                || (exists q, r :: 0 <= q < r < SIZE && entries[q].valid && entries[r].valid
                                   && !AddrEqual(entries[q].addr, entries[r].addr))
    {
      slot, addr := None, [];
      var i := 0;
      while i < SIZE
        invariant 0 <= i <= SIZE
        invariant slot.None? ==> forall r :: 0 <= r < i ==> !entries[r].valid
        invariant slot.Some? ==>
                && slot.value < i && entries[slot.value].valid && addr == entries[slot.value].addr
                && (forall r :: 0 <= r < slot.value ==> !entries[r].valid)
                && (forall r :: slot.value < r < i && entries[r].valid ==> AddrEqual(addr, entries[r].addr))
      {
        if entries[i].valid {
          var a := CopyAddr(i);
          if slot.None? {
            slot, addr := Some(i), a;
          } else if !AddrEqual(addr, a) {
            assert !AddrEqual(entries[slot.value].addr, entries[i].addr);
            slot := None;
            return;
          }
        }
        i := i + 1;
      }
    }
  }
}
