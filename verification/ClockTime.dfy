/**
 Clock accounting: every tick is charged to a process exactly once and survives fork and exit, and no alarm is late.
 */
module ClockTime {

  const SCHED_RATE: int := 6          // 100 ms at 60 ticks a second
  const LONG_MAX: int := 0x7FFF_FFFF

  /** The accounting fields of a process slot. alarm is 0 when no alarm is set. */
  datatype Account = Account(live: bool, user: int, child: int, alarm: int, watchdog: bool)

  datatype Clock = Clock(realtime: int, pending: int, lost: int, nextAlarm: int, schedTicks: int,
                         prev: int, slots: seq<Account>)
  {
    predicate Slot(i: int) { 0 <= i < |slots| }
  }

  predicate Armed(slots: seq<Account>, i: int) { 0 <= i < |slots| && slots[i].alarm != 0 }
  predicate Due(a: Account, now: int) { a.alarm != 0 && a.alarm <= now }

  /** get_uptime */
  function Uptime(c: Clock): int { c.realtime + c.pending }

  /** User time of all live processes, with what their exited children used. */
  function Total(slots: seq<Account>): int {
    if slots == [] then 0
    else Total(slots[..|slots| - 1]) + Share(slots[|slots| - 1])
  }

  function Share(a: Account): int { if a.live then a.user + a.child else 0 }

  lemma {:induction false} TotalUpdate(slots: seq<Account>, i: int, a: Account)
    requires 0 <= i < |slots|
    ensures Total(slots[i := a]) == Total(slots) - Share(slots[i]) + Share(a)
  {
    var n := |slots| - 1;
    var r := slots[i := a];
    if i < n {
      TotalUpdate(slots[..n], i, a);
      assert r[..n] == slots[..n][i := a];
    } else {
      assert r[..n] == slots[..n];
    }
  }

  // ---------------------------------------------------------------- the operations

  /** clock_handler: rp is charged; wake says whether the clock task is interrupted. */
  function Tick(c: Clock, rp: int, bill: int, usersReady: bool): (r: (Clock, bool))
    requires c.Slot(rp)
  {
    var ticks := c.lost + 1;
    var d := c.(lost := 0, pending := c.pending + ticks,
                slots := c.slots[rp := c.slots[rp].(user := c.slots[rp].user + ticks)]);
    if c.nextAlarm <= Uptime(d) || (c.schedTicks == 1 && bill == c.prev && usersReady) then (d, true)
    else (CountDown(d, bill), false)
  }

  function CountDown(c: Clock, bill: int): Clock {
    if c.schedTicks - 1 == 0 then c.(schedTicks := SCHED_RATE, prev := bill) else c.(schedTicks := c.schedTicks - 1)
  }

  /** clock_task: ticks seen by the handler only become real time. */
  function Transfer(c: Clock): Clock {
    c.(realtime := c.realtime + c.pending, pending := 0)
  }

  /** The smallest alarm from slot i on, if below best. */
  function NextFrom(slots: seq<Account>, i: nat, best: int): (r: int)
    requires i <= |slots|
    ensures r <= best && forall j :: i <= j < |slots| && Armed(slots, j) ==> r <= slots[j].alarm
    ensures r == best || exists j :: i <= j < |slots| && Armed(slots, j) && slots[j].alarm == r
    decreases |slots| - i
  {
    if i == |slots| then best
    else NextFrom(slots, i + 1, if slots[i].alarm != 0 && slots[i].alarm < best then slots[i].alarm else best)
  }

  /** The alarms that go off, in slot order. */
  function DueFrom(slots: seq<Account>, now: int, i: nat): (r: seq<int>)
    requires i <= |slots|
    decreases |slots| - i
  {
    if i == |slots| then [] else (if Due(slots[i], now) then [i] else []) + DueFrom(slots, now, i + 1)
  }

  /** Alarms that have gone off are cleared. */
  function Cleared(slots: seq<Account>, now: int): (r: seq<Account>)
    ensures |r| == |slots| && forall i :: 0 <= i < |slots| ==>
      r[i] == if Due(slots[i], now) then slots[i].(alarm := 0) else slots[i]
  {
    seq(|slots|, i requires 0 <= i < |slots| => if Due(slots[i], now) then slots[i].(alarm := 0) else slots[i])
  }

  datatype Clocked = Clocked(clock: Clock, rung: seq<int>, resched: bool)

  /** do_clocktick: the processes whose alarm goes off, and whether the running user is rescheduled. */
  function ClockTick(c: Clock, bill: int): (r: Clocked)
  {
    var due := c.nextAlarm <= c.realtime;
    var slots := if due then Cleared(c.slots, c.realtime) else c.slots;
    var d := c.(slots := slots, nextAlarm := if due then NextFrom(slots, 0, LONG_MAX) else c.nextAlarm);
    Clocked(CountDown(d, bill), if due then DueFrom(c.slots, c.realtime, 0) else [],
            c.schedTicks - 1 == 0 && bill == c.prev)
  }

  /** common_setalarm */
  function SetAlarm(c: Clock, n: int, delta: int, watchdog: bool): Clock
    requires c.Slot(n)
  {
    var slots := c.slots[n := c.slots[n].(alarm := if delta == 0 then 0 else c.realtime + delta, watchdog := watchdog)];
    c.(slots := slots, nextAlarm := NextFrom(slots, 0, LONG_MAX))
  }

  /** The accounting part of do_fork: the child is a copy, alarm included, with its times at zero. */
  function Fork(c: Clock, parent: int, child: int): Clock
    requires c.Slot(parent) && c.Slot(child)
  {
    c.(slots := c.slots[child := c.slots[parent].(user := 0, child := 0, watchdog := c.slots[child].watchdog)])
  }

  /** The accounting part of do_xit. */
  function Exit(c: Clock, parent: int, n: int): Clock
    requires c.Slot(parent) && c.Slot(n)
  {
    var s := c.slots[parent := c.slots[parent].(child := c.slots[parent].child + (c.slots[n].user + c.slots[n].child))];
    c.(slots := s[n := s[n].(alarm := 0, live := false)])
  }

  // ---------------------------------------------------------------- whole runs

  datatype Event =
    | TickEvent(rp: int, bill: int, usersReady: bool)
    | LoseTick                                          // a tick counted outside the clock handler
    | Message                                           // clock_task receives any request
    | HardInt(bill: int)                                // and if it is a tick, do_clocktick
    | Alarm(n: int, delta: int, watchdog: bool)
    | ForkEvent(parent: int, child: int)
    | ExitEvent(parent: int, n: int)

  /** The running process and both parties of fork and exit are what the callers guarantee. */
  predicate Enabled(c: Clock, e: Event) {
    match e
    case TickEvent(rp, bill, u) => c.Slot(rp) && c.slots[rp].live
    case Alarm(n, d, w) => c.Slot(n)
    case ForkEvent(p, ch) => c.Slot(p) && c.slots[p].live && c.Slot(ch) && !c.slots[ch].live
    case ExitEvent(p, n) => c.Slot(p) && c.slots[p].live && c.Slot(n) && c.slots[n].live && p != n
    case _ => true
  }

  function Apply(c: Clock, e: Event): Clock
    requires Enabled(c, e)
  {
    match e
    case TickEvent(rp, bill, u) => Tick(c, rp, bill, u).0
    case LoseTick => c.(lost := c.lost + 1)
    case Message => Transfer(c)
    case HardInt(bill) => ClockTick(Transfer(c), bill).clock
    case Alarm(n, d, w) => SetAlarm(Transfer(c), n, d, w)
    case ForkEvent(p, ch) => Fork(c, p, ch)
    case ExitEvent(p, n) => Exit(c, p, n)
  }

  /** All time is accounted for, and no alarm is set before next_alarm. */
  ghost predicate ClockInv(c: Clock) {
    && Total(c.slots) == Uptime(c)
    && (forall i :: Armed(c.slots, i) ==> c.nextAlarm <= c.slots[i].alarm)
    && 1 <= c.schedTicks <= SCHED_RATE
  }

  lemma ClearedTotal(slots: seq<Account>, now: int)
    ensures Total(Cleared(slots, now)) == Total(slots)
  {
    if slots != [] {
      var n := |slots| - 1;
      assert Cleared(slots, now)[..n] == Cleared(slots[..n], now);
      ClearedTotal(slots[..n], now);
    }
  }

  lemma ExitTotal(c: Clock, p: int, n: int)
    requires Enabled(c, ExitEvent(p, n))
    ensures Total(Exit(c, p, n).slots) == Total(c.slots) && Uptime(Exit(c, p, n)) == Uptime(c)
  {
    var a := c.slots[p].(child := c.slots[p].child + (c.slots[n].user + c.slots[n].child));
    TotalUpdate(c.slots, p, a);
    TotalUpdate(c.slots[p := a], n, Exit(c, p, n).slots[n]);
  }

  lemma ApplyTotal(c: Clock, e: Event)
    requires Total(c.slots) == Uptime(c) && Enabled(c, e)
    ensures Total(Apply(c, e).slots) == Uptime(Apply(c, e))
  {
    match e
    case TickEvent(rp, bill, u) => TotalUpdate(c.slots, rp, c.slots[rp].(user := c.slots[rp].user + (c.lost + 1)));
    case HardInt(bill) => ClearedTotal(c.slots, Uptime(c));
    case Alarm(n, d, w) => TotalUpdate(c.slots, n, Apply(c, e).slots[n]);
    case ForkEvent(p, ch) => TotalUpdate(c.slots, ch, Apply(c, e).slots[ch]);
    case ExitEvent(p, n) => ExitTotal(c, p, n);
    case _ =>
  }

  lemma ApplyAlarms(c: Clock, e: Event)
    requires ClockInv(c) && Enabled(c, e)
    ensures forall i :: Armed(Apply(c, e).slots, i) ==> Apply(c, e).nextAlarm <= Apply(c, e).slots[i].alarm
    ensures 1 <= Apply(c, e).schedTicks <= SCHED_RATE
  {
    var r := Apply(c, e);
    forall i | Armed(r.slots, i) ensures r.nextAlarm <= r.slots[i].alarm {
      assert !e.Alarm? && !e.ForkEvent? ==> Armed(c.slots, i) && c.slots[i].alarm == r.slots[i].alarm;
      if e.ForkEvent? { assert if i == e.child then Armed(c.slots, e.parent) else Armed(c.slots, i); }
    }
  }

  lemma ApplyKeeps(c: Clock, e: Event)
    requires ClockInv(c) && Enabled(c, e)
    ensures ClockInv(Apply(c, e))
  {
    ApplyTotal(c, e);
    ApplyAlarms(c, e);
  }

  /** At boot no time has passed and no alarm is set; next_alarm starts at 0. */
  predicate Boot(c: Clock) {
    && c.realtime == c.pending == c.lost == c.nextAlarm == 0 && c.schedTicks == SCHED_RATE
    && forall i :: 0 <= i < |c.slots| ==> c.slots[i].user == c.slots[i].child == c.slots[i].alarm == 0
  }

  lemma {:induction false} ZeroTotal(slots: seq<Account>)
    requires forall i :: 0 <= i < |slots| ==> slots[i].user == slots[i].child == 0
    ensures Total(slots) == 0
  {
    if slots != [] { ZeroTotal(slots[..|slots| - 1]); }
  }

  ghost predicate Run(run: seq<Clock>, events: seq<Event>) {
    && |run| == |events| + 1 && Boot(run[0])
    && forall j :: 0 <= j < |events| ==> Enabled(run[j], events[j]) && run[j + 1] == Apply(run[j], events[j])
  }

  /** In every state of every run, the user time of the live processes and their exited children is the uptime. */
  lemma {:induction false} TimeConserved(run: seq<Clock>, events: seq<Event>, j: nat)
    requires Run(run, events) && j < |run|
    ensures ClockInv(run[j]) && Total(run[j].slots) == Uptime(run[j])
  {
    if j == 0 {
      ZeroTotal(run[0].slots);
      assert forall i :: !Armed(run[0].slots, i);
    } else {
      TimeConserved(run, events, j - 1);
      var k := j - 1;
      assert Enabled(run[k], events[k]) && run[k + 1] == Apply(run[k], events[k]);
      ApplyKeeps(run[k], events[k]);
    }
  }

  /** A tick after which some alarm is due interrupts the clock task. */
  lemma DueAlarmWakes(c: Clock, rp: int, bill: int, usersReady: bool, i: int)
    requires ClockInv(c) && c.Slot(rp) && Armed(c.slots, i)
    ensures var (d, wake) := Tick(c, rp, bill, usersReady); Due(d.slots[i], Uptime(d)) ==> wake
  {
  }

  lemma {:induction false} DueFromIn(slots: seq<Account>, now: int, i: nat, x: int)
    requires i <= |slots|
    ensures x in DueFrom(slots, now, i) <==> i <= x < |slots| && Due(slots[x], now)
    decreases |slots| - i
  {
    if i < |slots| { DueFromIn(slots, now, i + 1, x); }
  }

  /** do_clocktick rings exactly the alarms that are due, leaves none due, and next_alarm is the first that remains. */
  lemma RingsExactlyDue(c: Clock, bill: int, x: int)
    requires ClockInv(c) && c.Slot(x)
    ensures var r := ClockTick(c, bill);
      && (x in r.rung <==> Due(c.slots[x], c.realtime))
      && !Due(r.clock.slots[x], c.realtime)
      && (x !in r.rung ==> r.clock.slots[x] == c.slots[x])
      && (Armed(r.clock.slots, x) ==> r.clock.nextAlarm <= r.clock.slots[x].alarm)
      && (c.nextAlarm <= c.realtime && r.clock.nextAlarm != LONG_MAX ==>
            exists j :: Armed(r.clock.slots, j) && r.clock.slots[j].alarm == r.clock.nextAlarm)
  {
    DueFromIn(c.slots, c.realtime, 0, x);
    assert Armed(c.slots, x) ==> c.nextAlarm <= c.slots[x].alarm;
  }

  // ---------------------------------------------------------------- the table in place

  /** One round of the scan of do_clocktick. */
  lemma ScanStep(slots: seq<Account>, cleared: seq<Account>, now: int, i: nat, best: int, rung: seq<int>)
    requires i < |slots| && |cleared| == |slots|
    ensures rung + DueFrom(slots, now, i) ==
      rung + (if Due(slots[i], now) then [i] else []) + DueFrom(slots, now, i + 1)
    ensures NextFrom(cleared, i, best) ==
      NextFrom(cleared, i + 1, if cleared[i].alarm != 0 && cleared[i].alarm < best then cleared[i].alarm else best)
  {
  }

  lemma ScanEnd(slots: seq<Account>, now: int, best: int)
    ensures DueFrom(slots, now, |slots|) == [] && NextFrom(slots, |slots|, best) == best
  {
  }

  class ClockTask {
    const slots: array<Account>
    var realtime: int
    var pending: int
    var lost: int
    var nextAlarm: int
    var schedTicks: int
    var prev: int

    ghost function St(): Clock
      reads this, slots
    {
      Clock(realtime, pending, lost, nextAlarm, schedTicks, prev, slots[..])
    }

    constructor (n: nat)
      ensures fresh(slots) && slots.Length == n && Boot(St())
    {
      slots := new Account[n](_ => Account(false, 0, 0, 0, false));
      realtime, pending, lost, nextAlarm, schedTicks, prev := 0, 0, 0, 0, SCHED_RATE, -1;
    }

    /** clock_handler */
    method ClockHandler(rp: int, bill: int, usersReady: bool) returns (wake: bool)
      requires 0 <= rp < slots.Length
      modifies this, slots
      ensures (St(), wake) == Tick(old(St()), rp, bill, usersReady)
    {
      var ticks := lost + 1;
      lost := 0;
      slots[rp] := slots[rp].(user := slots[rp].user + ticks);
      pending := pending + ticks;
      var now := realtime + pending;
      if nextAlarm <= now || (schedTicks == 1 && bill == prev && usersReady) { return true; }
      schedTicks := schedTicks - 1;
      if schedTicks == 0 { schedTicks, prev := SCHED_RATE, bill; }
      return false;
    }

    /** The scan for the first alarm. */
    method FindNext() returns (next: int)
      ensures next == NextFrom(slots[..], 0, LONG_MAX)
    {
      next := LONG_MAX;
      var i := 0;
      while i < slots.Length
        invariant 0 <= i <= slots.Length && NextFrom(slots[..], 0, LONG_MAX) == NextFrom(slots[..], i, next)
      {
        if slots[i].alarm != 0 && slots[i].alarm < next { next := slots[i].alarm; }
        i := i + 1;
      }
    }

    /** common_setalarm */
    method CommonSetalarm(n: int, delta: int, watchdog: bool)
      requires 0 <= n < slots.Length
      modifies `nextAlarm, slots
      ensures St() == SetAlarm(old(St()), n, delta, watchdog)
    {
      slots[n] := slots[n].(alarm := if delta == 0 then 0 else realtime + delta, watchdog := watchdog);
      var next := FindNext();
      nextAlarm := next;
    }

    /** One slot of do_clocktick: ring and clear its alarm if it is due, otherwise see whether it is the next. */
    method RingOne(i: int, best: int) returns (rings: bool, next: int)
      requires 0 <= i < slots.Length
      modifies slots
      ensures rings == Due(old(slots[i]), realtime) && slots[i] == Cleared(old(slots[..]), realtime)[i]
      ensures forall j :: 0 <= j < slots.Length && j != i ==> slots[j] == old(slots[j])
      ensures next == if slots[i].alarm != 0 && slots[i].alarm < best then slots[i].alarm else best
    {
      rings, next := false, best;
      if slots[i].alarm != 0 {
        if slots[i].alarm <= realtime {
          rings := true;
          slots[i] := slots[i].(alarm := 0);
        }
        if slots[i].alarm != 0 && slots[i].alarm < next { next := slots[i].alarm; }
      }
    }

    /** The loop of do_clocktick: ring, clear and find the next alarm in one pass. */
    method RingAlarms() returns (rung: seq<int>, next: int)
      modifies slots
      ensures rung == DueFrom(old(slots[..]), realtime, 0)
      ensures slots[..] == Cleared(old(slots[..]), realtime) && next == NextFrom(slots[..], 0, LONG_MAX)
    {
      hide DueFrom, NextFrom, Cleared, Due;
      rung, next := [], LONG_MAX;
      ghost var s, c := slots[..], Cleared(slots[..], realtime);
      var i := 0;
      while i < slots.Length
        invariant 0 <= i <= slots.Length
        invariant forall j :: 0 <= j < slots.Length ==> slots[j] == if j < i then c[j] else s[j]
        invariant DueFrom(s, realtime, 0) == rung + DueFrom(s, realtime, i)
        invariant NextFrom(c, 0, LONG_MAX) == NextFrom(c, i, next)
      {
        ScanStep(s, c, realtime, i, next, rung);
        var rings;
        rings, next := RingOne(i, next);
        if rings { rung := rung + [i]; }
        i := i + 1;
      }
      ScanEnd(s, realtime, next);
      ScanEnd(c, realtime, next);
      assert slots[..] == c;
    }

    /** do_clocktick */
    method DoClocktick(bill: int) returns (rung: seq<int>, resched: bool)
      modifies this, slots
      ensures Clocked(St(), rung, resched) == ClockTick(old(St()), bill)
    {
      rung, resched := [], false;
      if nextAlarm <= realtime {
        var next;
        rung, next := RingAlarms();
        nextAlarm := next;
      }
      schedTicks := schedTicks - 1;
      if schedTicks == 0 {
        resched := bill == prev;
        schedTicks, prev := SCHED_RATE, bill;
      }
    }
  }
}
