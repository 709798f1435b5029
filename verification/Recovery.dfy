/** The recovery state machine: five counters stepped by a timer decide when to ask for a reconnect and when to give
    up. Runs are described by the ticks alone, without the counters. */
module Recovery {
  import opened Powers

  /** What one timer tick finds: traffic from the remote, traffic from the client. */
  datatype Tick = Tick(remoteRx: bool, activity: bool)

  /** Numbers of ticks; an exit limit of zero means the exit guard is off. */
  datatype Limits = Limits(inactive: nat, silent: nat, exit: nat, warn: nat)

  datatype Counters = Counters(inactive: nat, silent: nat, total: nat, warned: bool, idle: nat)

  /** A run so far: the counters, whether it has ended in exit, and for each tick whether a reconnect was asked for. */
  datatype Run = Run(c: Counters, exited: bool, triggers: seq<bool>)

  const GRACE: nat := 12

  function AtLeastOne(n: int): nat { if n < 1 then 1 else n }

  function LimitsOf(timeoutSecs: int, silentSecs: int, exitSecs: int): (l: Limits)
    ensures l.inactive >= 1 && l.silent >= 1 && l.warn >= 1 && (l.exit > 0 <==> exitSecs > 0)
  {
    var silent := AtLeastOne(silentSecs / 5);
    Limits(AtLeastOne(timeoutSecs / 5), silent, if exitSecs > 0 then AtLeastOne(exitSecs / 5) else 0, AtLeastOne(silent / 2))
  }

  /** A tick is five seconds: the whole ticks that fit into each time, at least one; the warning comes at half the
      silent time; a client counts as active for a minute after its last packet. */
  lemma TicksOfSeconds(timeoutSecs: int, silentSecs: int, exitSecs: int)
    ensures var l := LimitsOf(timeoutSecs, silentSecs, exitSecs);
            && (timeoutSecs >= 5 ==> 5 * l.inactive <= timeoutSecs < 5 * l.inactive + 5)
            && (silentSecs >= 5 ==> 5 * l.silent <= silentSecs < 5 * l.silent + 5)
            && (exitSecs >= 5 ==> 5 * l.exit <= exitSecs < 5 * l.exit + 5)
            && (timeoutSecs < 5 ==> l.inactive == 1) && (silentSecs < 5 ==> l.silent == 1) && (0 < exitSecs < 5 ==> l.exit == 1)
            && (l.silent >= 2 ==> 2 * l.warn <= l.silent < 2 * l.warn + 2) && (l.silent == 1 ==> l.warn == 1)
    ensures 5 * GRACE == 60
  {
  }

  datatype Verdict = Verdict(c: Counters, exit: bool, trigger: bool)

  function Zero(): Counters { Counters(0, 0, 0, false, 0) }

  function Step(l: Limits, c: Counters, t: Tick): Verdict {
    if t.remoteRx then Verdict(Zero(), false, false)
    else
      var idle := if t.activity then 0 else c.idle + 1;
      if idle <= GRACE then
        var silent, total := c.silent + 1, c.total + 1;
        var warned := c.warned || total >= l.warn;
        if l.exit > 0 && total >= l.exit then Verdict(Counters(0, silent, total, warned, idle), true, false)
        else Verdict(Counters(0, if silent >= l.silent then 0 else silent, total, warned, idle), false, silent >= l.silent)
      else
        var inactive := c.inactive + 1;
        Verdict(Counters(if inactive >= l.inactive then 0 else inactive, 0, 0, false, idle), false, inactive >= l.inactive)
  }

  function After(l: Limits, ticks: seq<Tick>): (r: Run)
    ensures |r.triggers| <= |ticks| && (!r.exited ==> |r.triggers| == |ticks|)
  {
    if ticks == [] then Run(Zero(), false, [])
    else
      var r := After(l, ticks[..|ticks| - 1]);
      if r.exited then r
      else var v := Step(l, r.c, ticks[|ticks| - 1]); Run(v.c, v.exit, r.triggers + [v.trigger])
  }

  // ---- runs described by their ticks ----

  predicate Quiet(t: Tick) { !t.remoteRx && !t.activity }

  /** The client has been idle for more than the grace period at tick i: the last thirteen ticks were all quiet. */
  predicate IdleTooLong(ticks: seq<Tick>, i: nat)
    requires i < |ticks|
  {
    i >= GRACE && forall j :: i - GRACE <= j <= i ==> Quiet(ticks[j])
  }

  predicate SilentActive(ticks: seq<Tick>, i: nat)
    requires i < |ticks|
  {
    !ticks[i].remoteRx && !IdleTooLong(ticks, i)
  }

  /** The m ticks before position n were all silent with the client active. */
  predicate SilentRun(ticks: seq<Tick>, n: nat, m: nat)
    requires n <= |ticks|
  {
    m <= n && forall i: nat :: n - m <= i < n ==> SilentActive(ticks, i)
  }

  /** Somewhere there is a stretch of m such ticks. */
  ghost predicate HasSilentRun(ticks: seq<Tick>, m: nat) {
    exists n: nat :: n <= |ticks| && SilentRun(ticks, n, m)
  }

  /** At each of the m ticks before position n the client had been idle beyond the grace period. */
  predicate IdleRun(ticks: seq<Tick>, n: nat, m: nat)
    requires n <= |ticks|
  {
    m <= n && forall i: nat :: n - m <= i < n ==> IdleTooLong(ticks, i)
  }

  predicate QuietRun(ticks: seq<Tick>, m: nat) {
    m <= |ticks| && forall i: nat :: |ticks| - m <= i < |ticks| ==> Quiet(ticks[i])
  }

  function CountTrue(b: seq<bool>): nat {
    if b == [] then 0 else CountTrue(b[..|b| - 1]) + if b[|b| - 1] then 1 else 0
  }

  lemma CountEmpty()
    ensures CountTrue([]) == 0
  {
  }

  /** The ticks of a quiet stretch that lie beyond the grace period. */
  function BeyondGrace(idle: nat): nat {
    if idle > GRACE then idle - GRACE else 0
  }

  /** The inactive count restarts with every reconnect of the idle stretch at the end. */
  ghost predicate InactiveMeans(l: Limits, ticks: seq<Tick>, r: Run)
    requires |r.triggers| == |ticks|
  {
    var n, m := |ticks|, BeyondGrace(r.c.idle);
    && IdleRun(ticks, n, m) && !IdleRun(ticks, n, m + 1)
    && r.c.inactive < l.inactive
    && m == l.inactive * CountTrue(r.triggers[n - m..]) + r.c.inactive
  }

  /** What the counters of the silent stretch stand for. */
  ghost predicate SilentMeans(l: Limits, ticks: seq<Tick>, r: Run)
    requires |r.triggers| == |ticks|
  {
    var n := |ticks|;
    // the total is the length of the silent-active stretch at the end, and has not reached the exit limit
    && SilentRun(ticks, n, r.c.total) && !SilentRun(ticks, n, r.c.total + 1)
    && (l.exit > 0 ==> r.c.total < l.exit)
    // the silent count restarts with every reconnect of the stretch
    && r.c.silent < l.silent
    && r.c.total == l.silent * CountTrue(r.triggers[n - r.c.total..]) + r.c.silent
    && (r.c.warned <==> r.c.total >= l.warn)
  }

  /** What the counters stand for, in a run that has not exited. */
  ghost predicate CountersMean(l: Limits, ticks: seq<Tick>, r: Run) {
    && |r.triggers| == |ticks|
    // the idle count is the length of the quiet stretch at the end
    && QuietRun(ticks, r.c.idle) && !QuietRun(ticks, r.c.idle + 1)
    && SilentMeans(l, ticks, r)
    && InactiveMeans(l, ticks, r)
  }

  lemma RunDependsOnPrefix(ticks: seq<Tick>, t: Tick, n: nat, m: nat)
    requires n <= |ticks|
    ensures SilentRun(ticks + [t], n, m) <==> SilentRun(ticks, n, m)
  {
    if m <= n {
      forall i: nat | n - m <= i < n
        ensures SilentActive(ticks + [t], i) <==> SilentActive(ticks, i)
      {
        ActiveDependsOnPrefix(ticks, t, i);
      }
    }
  }

  lemma ActiveDependsOnPrefix(ticks: seq<Tick>, t: Tick, i: nat)
    requires i < |ticks|
    ensures SilentActive(ticks + [t], i) <==> SilentActive(ticks, i)
  {
    var u := ticks + [t];
    assert forall j :: i - GRACE <= j <= i && j >= 0 ==> u[j] == ticks[j];
  }

  lemma QuietGrows(ticks: seq<Tick>, t: Tick, idle: nat)
    requires QuietRun(ticks, idle) && !QuietRun(ticks, idle + 1)
    ensures Quiet(t) ==> QuietRun(ticks + [t], idle + 1) && !QuietRun(ticks + [t], idle + 2)
    ensures !Quiet(t) ==> QuietRun(ticks + [t], 0) && !QuietRun(ticks + [t], 1)
    ensures IdleTooLong(ticks + [t], |ticks|) <==> Quiet(t) && idle + 1 > GRACE
  {
    var u := ticks + [t];
    if idle < |ticks| {
      assert !Quiet(u[|ticks| - idle - 1]);
    }
    if QuietRun(u, 1) {
      assert Quiet(u[|ticks|]);
    }
  }

  lemma RunGrows(ticks: seq<Tick>, t: Tick, total: nat)
    requires SilentRun(ticks, |ticks|, total) && !SilentRun(ticks, |ticks|, total + 1)
    ensures var u := ticks + [t];
            && (SilentActive(u, |ticks|) ==> SilentRun(u, |u|, total + 1) && !SilentRun(u, |u|, total + 2))
            && (!SilentActive(u, |ticks|) ==> SilentRun(u, |u|, 0) && !SilentRun(u, |u|, 1))
  {
    var u := ticks + [t];
    RunDependsOnPrefix(ticks, t, |ticks|, total);
    RunDependsOnPrefix(ticks, t, |ticks|, total + 1);
    if SilentRun(u, |u|, total + 2) {
      assert SilentRun(u, |ticks|, total + 1);
    }
    if SilentRun(u, |u|, 1) {
      assert SilentActive(u, |ticks|);
    }
  }

  lemma IdleDependsOnPrefix(ticks: seq<Tick>, t: Tick, m: nat)
    ensures IdleRun(ticks + [t], |ticks|, m) <==> IdleRun(ticks, |ticks|, m)
  {
    var u := ticks + [t];
    if m <= |ticks| {
      forall i: nat | |ticks| - m <= i < |ticks|
        ensures IdleTooLong(u, i) <==> IdleTooLong(ticks, i)
      {
        assert forall j :: i - GRACE <= j <= i && j >= 0 ==> u[j] == ticks[j];
      }
    }
  }

  lemma IdleGrows(ticks: seq<Tick>, t: Tick, m: nat)
    requires IdleRun(ticks, |ticks|, m) && !IdleRun(ticks, |ticks|, m + 1)
    ensures var u := ticks + [t];
            && (IdleTooLong(u, |ticks|) ==> IdleRun(u, |u|, m + 1) && !IdleRun(u, |u|, m + 2))
            && (!IdleTooLong(u, |ticks|) ==> IdleRun(u, |u|, 0) && !IdleRun(u, |u|, 1))
  {
    var u := ticks + [t];
    IdleDependsOnPrefix(ticks, t, m);
    IdleDependsOnPrefix(ticks, t, m + 1);
    hide IdleTooLong;
    assert IdleRun(u, |u|, m + 2) ==> IdleRun(u, |ticks|, m + 1);
    assert IdleRun(u, |u|, 1) ==> IdleTooLong(u, |u| - 1);
  }

  lemma CountAppend(b: seq<bool>, x: bool)
    ensures CountTrue(b + [x]) == CountTrue(b) + if x then 1 else 0
  {
    assert (b + [x])[..|b|] == b;
  }

  /** The stretch of triggers grows by one, or starts again. */
  lemma TriggersGrow(b: seq<bool>, x: bool, total: nat)
    requires total <= |b|
    ensures CountTrue((b + [x])[|b| - total..]) == CountTrue(b[|b| - total..]) + if x then 1 else 0
    ensures CountTrue((b + [x])[|b| + 1..]) == 0
  {
    assert (b + [x])[|b| - total..] == b[|b| - total..] + [x];
    CountAppend(b[|b| - total..], x);
    assert (b + [x])[|b| + 1..] == [];
  }

  lemma NextMultiple(s: nat, k: nat, x: bool)
    ensures s * (k + if x then 1 else 0) == s * k + if x then s else 0
  {
  }

  lemma QuietFits(ticks: seq<Tick>, idle: nat)
    requires QuietRun(ticks, idle)
    ensures idle <= |ticks|
  {
  }

  lemma StepKeepsInactive(l: Limits, ticks: seq<Tick>, t: Tick, r: Run)
    requires l.silent >= 1 && l.inactive >= 1 && l.warn >= 1 && CountersMean(l, ticks, r)
    ensures var v := Step(l, r.c, t);
            !v.exit ==> InactiveMeans(l, ticks + [t], Run(v.c, false, r.triggers + [v.trigger]))
  {
    hide IdleTooLong, SilentRun, IdleRun, QuietRun, CountTrue, Quiet;
    var v, m := Step(l, r.c, t), BeyondGrace(r.c.idle);
    assert m <= |ticks| by { QuietFits(ticks, r.c.idle); }
    QuietGrows(ticks, t, r.c.idle);
    ActiveNow(ticks, t);
    IdleGrows(ticks, t, m);
    TriggersGrow(r.triggers, v.trigger, m);
    NextMultiple(l.inactive, CountTrue(r.triggers[|ticks| - m..]), v.trigger);
  }

  lemma StepKeepsSilent(l: Limits, ticks: seq<Tick>, t: Tick, r: Run)
    requires l.silent >= 1 && l.inactive >= 1 && l.warn >= 1
    requires |r.triggers| == |ticks| && QuietRun(ticks, r.c.idle) && !QuietRun(ticks, r.c.idle + 1) && SilentMeans(l, ticks, r)
    ensures var v := Step(l, r.c, t);
            var u := ticks + [t];
            && (!v.exit ==> SilentMeans(l, u, Run(v.c, false, r.triggers + [v.trigger])))
            && (v.exit <==> l.exit > 0 && SilentRun(u, |u|, l.exit))
            && (v.exit ==> v.c.total == l.exit && !SilentRun(u, |u|, l.exit + 1))
  {
    hide IdleTooLong, SilentActive, QuietRun, SilentRun, CountTrue, Quiet;
    var v, u := Step(l, r.c, t), ticks + [t];
    QuietGrows(ticks, t, r.c.idle);
    ActiveNow(ticks, t);
    LongerRunsToo(ticks, |ticks|, 0, r.c.total);
    RunGrows(ticks, t, r.c.total);
    TriggersGrow(r.triggers, v.trigger, r.c.total);
    NextMultiple(l.silent, CountTrue(r.triggers[|ticks| - r.c.total..]), v.trigger);
    LongerRunsToo(u, |u|, l.exit, v.c.total);
  }

  lemma StepKeepsQuiet(l: Limits, ticks: seq<Tick>, t: Tick, c: Counters)
    requires QuietRun(ticks, c.idle) && !QuietRun(ticks, c.idle + 1)
    ensures var v, u := Step(l, c, t), ticks + [t]; QuietRun(u, v.c.idle) && !QuietRun(u, v.c.idle + 1)
  {
    QuietGrows(ticks, t, c.idle);
    hide QuietRun;
  }

  lemma StepKeepsMeaning(l: Limits, ticks: seq<Tick>, t: Tick, r: Run)
    requires l.silent >= 1 && l.inactive >= 1 && l.warn >= 1 && CountersMean(l, ticks, r)
    ensures var v := Step(l, r.c, t);
            var u := ticks + [t];
            && (!v.exit ==> CountersMean(l, u, Run(v.c, false, r.triggers + [v.trigger])))
            && (v.exit <==> l.exit > 0 && SilentRun(u, |u|, l.exit))
            && (v.exit ==> v.c.total == l.exit && !SilentRun(u, |u|, l.exit + 1))
  {
    StepKeepsQuiet(l, ticks, t, r.c);
    StepKeepsSilent(l, ticks, t, r);
    StepKeepsInactive(l, ticks, t, r);
    hide Step, QuietRun, SilentMeans, InactiveMeans, SilentRun;
  }

  lemma ActiveNow(ticks: seq<Tick>, t: Tick)
    ensures SilentActive(ticks + [t], |ticks|) <==> !t.remoteRx && !IdleTooLong(ticks + [t], |ticks|)
    ensures Quiet(t) <==> !t.remoteRx && !t.activity
  {
  }

  /** A stretch longer than the longest does not exist. */
  lemma LongerRunsToo(u: seq<Tick>, n: nat, m: nat, total: nat)
    requires n <= |u|
    ensures SilentRun(u, n, total) && m <= total ==> SilentRun(u, n, m)
    ensures !SilentRun(u, n, total + 1) && m > total ==> !SilentRun(u, n, m)
    ensures SilentRun(u, n, total) ==> total <= n
  {
  }

  /** Over every sequence of ticks: until it exits, the counters mean what CountersMean says; and it has exited
      exactly when some stretch of l.exit consecutive ticks brought no remote traffic while the client was never idle
      beyond the grace period. */
  lemma {:induction false} ExitCharacterised(l: Limits, ticks: seq<Tick>)
    requires l.silent >= 1 && l.inactive >= 1 && l.warn >= 1
    ensures var r := After(l, ticks);
            && (!r.exited ==> CountersMean(l, ticks, r))
            && (r.exited <==> l.exit > 0 && HasSilentRun(ticks, l.exit))
  {
    if ticks == [] {
      assert After(l, ticks).triggers[0..] == [];
    } else {
      var rest, t := ticks[..|ticks| - 1], ticks[|ticks| - 1];
      ExitCharacterised(l, rest);
      assert ticks == rest + [t];
      var r := After(l, rest);
      HasRunGrows(rest, t, l.exit);
      if !r.exited {
        StepKeepsMeaning(l, rest, t, r);
      }
      hide HasSilentRun, SilentRun, CountersMean, Step;
    }
  }

  lemma HasRunGrows(ticks: seq<Tick>, t: Tick, m: nat)
    ensures HasSilentRun(ticks + [t], m) <==> HasSilentRun(ticks, m) || SilentRun(ticks + [t], |ticks| + 1, m)
  {
    forall n: nat | n <= |ticks|
      ensures SilentRun(ticks + [t], n, m) <==> SilentRun(ticks, n, m)
    {
      RunDependsOnPrefix(ticks, t, n, m);
    }
    hide SilentRun;
  }

  /** A stretch of T silent-active ticks that has not led to exit has asked for a reconnect exactly T / S times. */
  lemma ReconnectsWithinRun(l: Limits, ticks: seq<Tick>, m: nat)
    requires l.silent >= 1 && l.inactive >= 1 && l.warn >= 1 && !After(l, ticks).exited
    requires SilentRun(ticks, |ticks|, m) && !SilentRun(ticks, |ticks|, m + 1)
    ensures m <= |After(l, ticks).triggers|
    ensures CountTrue(After(l, ticks).triggers[|ticks| - m..]) == m / l.silent
  {
    ExitCharacterised(l, ticks);
    var r := After(l, ticks);
    LongerRunsToo(ticks, |ticks|, m, r.c.total);
    LongerRunsToo(ticks, |ticks|, m + 1, r.c.total);
    assert m == r.c.total;
    hide SilentRun, CountTrue;
    QuotientOf(m, l.silent, CountTrue(r.triggers[|ticks| - m..]), r.c.silent);
  }

  lemma LongerIdleToo(u: seq<Tick>, n: nat, m: nat, k: nat)
    requires n <= |u| && IdleRun(u, n, m) && !IdleRun(u, n, m + 1) && IdleRun(u, n, k) && !IdleRun(u, n, k + 1)
    ensures m == k
  {
    hide IdleTooLong;
  }

  /** A stretch of m ticks at which the client had been idle beyond the grace period has asked for a reconnect
      exactly m / I times. */
  lemma ReconnectsWithinIdleRun(l: Limits, ticks: seq<Tick>, m: nat)
    requires l.silent >= 1 && l.inactive >= 1 && l.warn >= 1 && !After(l, ticks).exited
    requires IdleRun(ticks, |ticks|, m) && !IdleRun(ticks, |ticks|, m + 1)
    ensures m <= |After(l, ticks).triggers|
    ensures CountTrue(After(l, ticks).triggers[|ticks| - m..]) == m / l.inactive
  {
    ExitCharacterised(l, ticks);
    var r := After(l, ticks);
    LongerIdleToo(ticks, |ticks|, m, BeyondGrace(r.c.idle));
    hide IdleRun, CountTrue, SilentRun, QuietRun;
    QuotientOf(m, l.inactive, CountTrue(r.triggers[|ticks| - m..]), r.c.inactive);
  }

  /** A reconnect is asked for at a tick by one of two rules and no other: the tick completes a multiple of S silent
      ticks with the client active, or a multiple of I ticks with the client idle beyond the grace period. */
  lemma RequestRule(l: Limits, ticks: seq<Tick>, t: Tick, silent: nat, idle: nat)
    requires l.silent >= 1 && l.inactive >= 1 && l.warn >= 1 && !After(l, ticks + [t]).exited
    requires var u := ticks + [t];
             && SilentRun(u, |u|, silent) && !SilentRun(u, |u|, silent + 1)
             && IdleRun(u, |u|, idle) && !IdleRun(u, |u|, idle + 1)
    ensures var b := After(l, ticks + [t]).triggers;
            && |b| == |ticks| + 1
            && (b[|ticks|] <==> (silent > 0 && silent % l.silent == 0) || (idle > 0 && idle % l.inactive == 0))
  {
    var u := ticks + [t];
    var r, r' := After(l, ticks), After(l, u);
    LastTick(l, ticks, t);
    ExitCharacterised(l, u);
    StretchLengths(l, u, r', silent, idle);
    TriggerLeavesZero(l, r.c, t);
    Remainders(l, u, r');
    hide *;
  }

  lemma LastTick(l: Limits, ticks: seq<Tick>, t: Tick)
    requires !After(l, ticks + [t]).exited
    ensures var v, r, r' := Step(l, After(l, ticks).c, t), After(l, ticks), After(l, ticks + [t]);
            !v.exit && r'.c == v.c && |r.triggers| == |ticks| && r'.triggers == r.triggers + [v.trigger]
  {
    AfterOne(l, ticks, t);
    hide Step;
  }

  lemma StretchLengths(l: Limits, u: seq<Tick>, r: Run, silent: nat, idle: nat)
    requires CountersMean(l, u, r)
    requires SilentRun(u, |u|, silent) && !SilentRun(u, |u|, silent + 1)
    requires IdleRun(u, |u|, idle) && !IdleRun(u, |u|, idle + 1)
    ensures silent == r.c.total && idle == BeyondGrace(r.c.idle)
  {
    LongerRunsToo(u, |u|, silent, r.c.total);
    LongerRunsToo(u, |u|, silent + 1, r.c.total);
    LongerIdleToo(u, |u|, idle, BeyondGrace(r.c.idle));
    hide SilentRun, IdleRun, QuietRun, CountTrue, BeyondGrace;
  }

  /** Which counters a request leaves at zero. */
  lemma TriggerLeavesZero(l: Limits, c: Counters, t: Tick)
    requires l.silent >= 1 && l.inactive >= 1
    ensures var v := Step(l, c, t);
            !v.exit ==>
              (v.trigger <==> (v.c.total > 0 && v.c.silent == 0) || (BeyondGrace(v.c.idle) > 0 && v.c.inactive == 0))
  {
  }

  lemma Remainders(l: Limits, ticks: seq<Tick>, r: Run)
    requires l.silent >= 1 && l.inactive >= 1 && CountersMean(l, ticks, r)
    ensures r.c.total % l.silent == r.c.silent && BeyondGrace(r.c.idle) % l.inactive == r.c.inactive
  {
    var m := BeyondGrace(r.c.idle);
    hide CountTrue, BeyondGrace;
    DivUnique(r.c.total, l.silent, CountTrue(r.triggers[|ticks| - r.c.total..]), r.c.silent);
    DivUnique(m, l.inactive, CountTrue(r.triggers[|ticks| - m..]), r.c.inactive);
  }

  lemma QuotientOf(m: nat, s: nat, k: nat, rest: nat)
    requires s >= 1 && rest < s && m == s * k + rest
    ensures m / s == k
  {
    DivUnique(m, s, k, rest);
  }

  // ---- the automatic reconnect interval ----

  /** The interval used when none is configured: four keepalives, at least 30 s, at most half the exit guard. */
  function SilentTimeout(explicitSecs: int, haveKeepalive: bool, keepalive: int, exitSecs: int): (t: int)
    ensures t > 0
    ensures explicitSecs <= 0 ==> t >= 30
    ensures explicitSecs <= 0 && exitSecs >= 60 ==> t <= exitSecs / 2
  {
    if explicitSecs > 0 then explicitSecs
    else
      var t := (if haveKeepalive && keepalive > 0 then keepalive else 15) * 4;
      var atLeast := if t < 30 then 30 else t;
      if exitSecs > 0 then
        var cap := if exitSecs / 2 < 30 then 30 else exitSecs / 2;
        if atLeast > cap then cap else atLeast
      else atLeast
  }

  method ComputeRemoteSilentTimeout(explicitSecs: int, haveKeepalive: bool, keepalive: int, exitSecs: int) returns (t: int)
    requires keepalive < 0x2000_0000
    ensures t == SilentTimeout(explicitSecs, haveKeepalive, keepalive, exitSecs)
  {
    if explicitSecs > 0 {
      return explicitSecs;
    }
    var ka := if haveKeepalive && keepalive > 0 then keepalive else 15;
    t := ka * 4;
    if t < 30 {
      t := 30;
    }
    if exitSecs > 0 {
      var cap := exitSecs / 2;
      if cap < 30 {
        cap := 30;
      }
      if t > cap {
        t := cap;
      }
    }
  }

  /** With the automatic interval the reconnect limit lies below the exit limit exactly when the exit guard is at
      least 35 seconds. */
  lemma AutoIntervalBelowExit(haveKeepalive: bool, keepalive: int, timeoutSecs: int, exitSecs: int)
    requires exitSecs > 0
    ensures var l := LimitsOf(timeoutSecs, SilentTimeout(0, haveKeepalive, keepalive, exitSecs), exitSecs);
            l.silent < l.exit <==> exitSecs >= 35
  {
    var t := SilentTimeout(0, haveKeepalive, keepalive, exitSecs);
    assert exitSecs < 60 ==> t == 30;
  }

  /** When it exits, the reconnects asked for in the run that led there, strictly before the exit tick, are (E-1) / S. */
  lemma ReconnectsBeforeExit(l: Limits, ticks: seq<Tick>, t: Tick)
    requires l.silent >= 1 && l.inactive >= 1 && l.warn >= 1
    requires !After(l, ticks).exited && After(l, ticks + [t]).exited
    ensures l.exit > 0 && l.exit - 1 <= |ticks| == |After(l, ticks).triggers|
    ensures CountTrue(After(l, ticks).triggers[|ticks| - (l.exit - 1)..]) == (l.exit - 1) / l.silent
  {
    assert (ticks + [t])[..|ticks|] == ticks;
    ExitCharacterised(l, ticks);
    var r := After(l, ticks);
    StepKeepsMeaning(l, ticks, t, r);
    RunGrows(ticks, t, r.c.total);
    assert r.c.total == l.exit - 1;
    ReconnectsWithinRun(l, ticks, l.exit - 1);
    hide SilentRun, CountTrue;
  }

  /** With the automatic interval, the run that ends in an exit has asked for a reconnect before the exit tick if and
      only if the exit guard is at least 35 seconds. */
  lemma ReconnectIsTriedFirst(haveKeepalive: bool, keepalive: int, timeoutSecs: int, exitSecs: int, ticks: seq<Tick>, t: Tick)
    requires exitSecs > 0
    requires var l := LimitsOf(timeoutSecs, SilentTimeout(0, haveKeepalive, keepalive, exitSecs), exitSecs);
             !After(l, ticks).exited && After(l, ticks + [t]).exited
    ensures var l := LimitsOf(timeoutSecs, SilentTimeout(0, haveKeepalive, keepalive, exitSecs), exitSecs);
            && l.exit - 1 <= |ticks| == |After(l, ticks).triggers|
            && (CountTrue(After(l, ticks).triggers[|ticks| - (l.exit - 1)..]) >= 1 <==> exitSecs >= 35)
  {
    hide After, CountTrue, LimitsOf, SilentTimeout;
    var l := LimitsOf(timeoutSecs, SilentTimeout(0, haveKeepalive, keepalive, exitSecs), exitSecs);
    AutoIntervalBelowExit(haveKeepalive, keepalive, timeoutSecs, exitSecs);
    ReconnectsBeforeExit(l, ticks, t);
    AtLeastOnce(l.exit - 1, l.silent);
  }

  lemma AtLeastOnce(a: nat, s: nat)
    requires 1 <= s
    ensures a / s >= 1 <==> s <= a
  {
    if s <= a {
      var q, r := (a - s) / s, (a - s) % s;
      DivUnique(a, s, q + 1, r);
    } else {
      DivUnique(a, s, 0, a);
    }
  }

  function Silence(n: nat): (ticks: seq<Tick>)
    ensures |ticks| == n
  {
    if n == 0 then [] else Silence(n - 1) + [Tick(false, true)]
  }

  lemma {:induction false} AfterSilence(l: Limits, k: nat)
    requires l.exit == 6 && l.silent == 6 && l.warn == 3 && k <= 6
    ensures var r := After(l, Silence(k));
            r == Run(Counters(0, k, k, k >= 3, 0), k == 6, r.triggers) && CountTrue(r.triggers) == 0
  {
    if k == 0 {
      CountEmpty();
    } else {
      AfterSilence(l, k - 1);
      AfterOne(l, Silence(k - 1), Tick(false, true));
      CountAppend(After(l, Silence(k - 1)).triggers, false);
      hide After, CountTrue;
    }
  }

  /** Below 35 seconds the guard comes first: with thirty seconds, six silent ticks end in exit without a single
      request. */
  lemma ExitWithoutReconnect()
    ensures var l := LimitsOf(180, SilentTimeout(0, false, 0, 30), 30);
            var r := After(l, Silence(6));
            r.exited && CountTrue(r.triggers) == 0
  {
    AfterSilence(LimitsOf(180, SilentTimeout(0, false, 0, 30), 30), 6);
    hide After, CountTrue, Silence;
  }

  lemma AfterOne(l: Limits, ticks: seq<Tick>, t: Tick)
    ensures var r := After(l, ticks);
            After(l, ticks + [t]) ==
              if r.exited then r else var v := Step(l, r.c, t); Run(v.c, v.exit, r.triggers + [v.trigger])
    ensures After(l, []) == Run(Zero(), false, [])
  {
    assert (ticks + [t])[..|ticks|] == ticks;
  }

  // ---- the control loop ----

  class Control {
    var inactiveCount: nat
    var remoteSilentCount: nat
    var remoteSilentTotal: nat
    var silenceWarned: bool
    var clientIdleTicks: nat
    // flags shared with the packet threads
    var lastActive: bool
    var lastRemoteRx: bool
    var reconnectNeeded: bool
    var reconnectDrift: bool
    // fixed for the run
    const limits: Limits
    const srcPortDrift: bool
    const autoSrcPort: bool

    function View(): Counters
      reads this
    {
      Counters(inactiveCount, remoteSilentCount, remoteSilentTotal, silenceWarned, clientIdleTicks)
    }

    constructor (timeoutSecs: int, silentSecs: int, exitSecs: int, drift: bool, auto: bool)
      ensures View() == Zero() && limits == LimitsOf(timeoutSecs, silentSecs, exitSecs)
      ensures srcPortDrift == drift && autoSrcPort == auto && !reconnectNeeded && !reconnectDrift
    {
      inactiveCount, remoteSilentCount, remoteSilentTotal, silenceWarned, clientIdleTicks := 0, 0, 0, false, 0;
      lastActive, lastRemoteRx, reconnectNeeded, reconnectDrift := false, false, false, false;
      limits := LimitsOf(timeoutSecs, silentSecs, exitSecs);
      srcPortDrift, autoSrcPort := drift, auto;
    }

    /** A reconnect is requested, with a fresh source port if drift is on; without a socket there is nothing to do. */
    method TriggerRecoveryReconnect(connected: bool)
      modifies this`reconnectNeeded, this`reconnectDrift
      ensures reconnectNeeded == (old(reconnectNeeded) || connected)
      ensures reconnectDrift == (old(reconnectDrift) || (connected && srcPortDrift && autoSrcPort))
    {
      if !connected { return; }
      if srcPortDrift && autoSrcPort {
        reconnectDrift := true;
      }
      reconnectNeeded := true;
    }

    /** The timer handler. */
    method OnTimer(connected: bool) returns (exit: bool, ghost trigger: bool)
      modifies this
      ensures var v := Step(limits, old(View()), Tick(old(lastRemoteRx), old(lastActive)));
              View() == v.c && exit == v.exit && trigger == v.trigger
      ensures !lastActive && !lastRemoteRx
      ensures reconnectNeeded == (old(reconnectNeeded) || (trigger && connected))
      ensures reconnectDrift == (!old(lastRemoteRx) && (old(reconnectDrift) || (trigger && connected && srcPortDrift && autoSrcPort)))
    {
      var hadActivity, hadRemoteRx := lastActive, lastRemoteRx;
      lastActive, lastRemoteRx := false, false;
      exit, trigger := false, false;
      if hadRemoteRx {
        inactiveCount, remoteSilentCount, remoteSilentTotal, silenceWarned, clientIdleTicks := 0, 0, 0, false, 0;
        reconnectDrift := false;
        return;
      }
      if hadActivity {
        clientIdleTicks := 0;
      } else {
        clientIdleTicks := clientIdleTicks + 1;
      }
      if clientIdleTicks <= GRACE {
        inactiveCount := 0;
        remoteSilentCount := remoteSilentCount + 1;
        remoteSilentTotal := remoteSilentTotal + 1;
        if !silenceWarned && remoteSilentTotal >= limits.warn {
          silenceWarned := true;
        }
        if limits.exit > 0 && remoteSilentTotal >= limits.exit {
          exit := true;
          return;
        }
        if remoteSilentCount >= limits.silent {
          TriggerRecoveryReconnect(connected);
          trigger := true;
          remoteSilentCount := 0;
        }
      } else {
        remoteSilentCount, remoteSilentTotal, silenceWarned := 0, 0, false;
        inactiveCount := inactiveCount + 1;
        if inactiveCount >= limits.inactive {
          TriggerRecoveryReconnect(connected);
          trigger := true;
          inactiveCount := 0;
        }
      }
    }

    /** The loop over a whole run of ticks, each setting the traffic flags before the timer fires. */
    method ControlLoop(ticks: seq<Tick>, connected: bool) returns (exited: bool)
      requires View() == Zero() && limits.silent >= 1 && limits.inactive >= 1 && limits.warn >= 1
      modifies this
      ensures exited == After(limits, ticks).exited
      ensures exited <==> limits.exit > 0 && HasSilentRun(ticks, limits.exit)
    {
      hide Step, HasSilentRun;
      exited := false;
      var i := 0;
      while i < |ticks| && !exited
        invariant 0 <= i <= |ticks|
        invariant exited == After(limits, ticks[..i]).exited && View() == After(limits, ticks[..i]).c
      {
        lastRemoteRx, lastActive := ticks[i].remoteRx, ticks[i].activity;
        ghost var trigger;
        exited, trigger := OnTimer(connected);
        assert ticks[..i + 1] == ticks[..i] + [ticks[i]];
        AfterOne(limits, ticks[..i], ticks[i]);
        i := i + 1;
      }
      if exited {
        OnceExited(limits, ticks, i);
      }
      assert ticks[..|ticks|] == ticks;
      ExitCharacterised(limits, ticks);
    }
  }

  /** After exit nothing more happens. */
  lemma {:induction false} OnceExited(l: Limits, ticks: seq<Tick>, i: nat)
    requires i <= |ticks| && After(l, ticks[..i]).exited
    ensures After(l, ticks).exited
    decreases |ticks|
  {
    if i < |ticks| {
      assert ticks[..|ticks| - 1][..i] == ticks[..i];
      OnceExited(l, ticks[..|ticks| - 1], i);
    } else {
      assert ticks[..i] == ticks;
    }
  }
}
