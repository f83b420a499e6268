/**
 What the clock does, in terms of the fields: who is charged, when an alarm goes off, when the running user has to make
 way.
 */
module AlarmRuns {
  import opened ClockTime

  // ---------------------------------------------------------------- single operations

  /** The clock handler charges the running process, and nobody else, for this tick and the lost ones. The clock task is
      woken if an alarm may be due or the user's time is up; otherwise that time is counted down. */
  lemma HandlerEffect(c: Clock, rp: int, bill: int, usersReady: bool, i: int)
    requires c.Slot(rp) && c.Slot(i)
    ensures var (d, wake) := Tick(c, rp, bill, usersReady);
      && |d.slots| == |c.slots| && d.realtime == c.realtime && d.lost == 0 && d.nextAlarm == c.nextAlarm
      && Uptime(d) == Uptime(c) + c.lost + 1
      && d.slots[i].user == c.slots[i].user + (if i == rp then c.lost + 1 else 0)
      && d.slots[i].child == c.slots[i].child && d.slots[i].alarm == c.slots[i].alarm
      && d.slots[i].live == c.slots[i].live
      && (wake <==> c.nextAlarm <= Uptime(c) + c.lost + 1 || (c.schedTicks == 1 && bill == c.prev && usersReady))
      && (d.schedTicks, d.prev) == if wake then (c.schedTicks, c.prev) else CountedDown(c, bill)
  {
  }

  /** One tick less for the user who is billed; when they are used up there are SCHED_RATE new ones, and it is noted. */
  function CountedDown(c: Clock, bill: int): (int, int) {
    if c.schedTicks == 1 then (SCHED_RATE, bill) else (c.schedTicks - 1, c.prev)
  }

  /** do_clocktick reschedules exactly when the time of the user is used up who was billed when it was last renewed. */
  lemma ReschedulesIff(c: Clock, bill: int)
    ensures var r := ClockTick(c, bill);
      && (r.resched <==> c.schedTicks == 1 && bill == c.prev)
      && (r.clock.schedTicks, r.clock.prev) == CountedDown(c, bill)
      && r.clock.realtime == c.realtime && r.clock.pending == c.pending && r.clock.lost == c.lost
  {
  }

  /** common_setalarm: an alarm of delta ticks goes off delta ticks from now, and one of no ticks is no alarm. Nothing
      else changes, and next_alarm is the first of all alarms. */
  lemma SetAlarmEffect(c: Clock, n: int, delta: int, watchdog: bool, i: int)
    requires c.Slot(n) && c.Slot(i)
    ensures var d := SetAlarm(c, n, delta, watchdog);
      && |d.slots| == |c.slots| && (delta == 0 ==> !Armed(d.slots, n))
      && (delta != 0 ==> d.slots[n].alarm - c.realtime == delta)
      && (i != n ==> d.slots[i] == c.slots[i])
      && d.slots[n].user == c.slots[n].user && d.slots[n].child == c.slots[n].child
      && d.slots[n].live == c.slots[n].live && d.slots[n].watchdog == watchdog && d.nextAlarm <= LONG_MAX
      && (Armed(d.slots, i) ==> d.nextAlarm <= d.slots[i].alarm)
      && (d.nextAlarm < LONG_MAX ==> exists j :: Armed(d.slots, j) && d.slots[j].alarm == d.nextAlarm)
      && d.realtime == c.realtime && d.pending == c.pending && d.lost == c.lost && d.schedTicks == c.schedTicks
  {
  }

  /** The times of a child start at zero, its alarm is its parent's. */
  lemma ForkEffect(c: Clock, parent: int, child: int, i: int)
    requires c.Slot(parent) && c.Slot(child) && c.Slot(i)
    ensures var d := Fork(c, parent, child);
      && |d.slots| == |c.slots| && d.slots[child].user == 0 && d.slots[child].child == 0
      && d.slots[child].alarm == c.slots[parent].alarm && (i != child ==> d.slots[i] == c.slots[i])
  {
  }

  /** What a process and its children used goes to its parent, and its alarm is off. */
  lemma ExitEffect(c: Clock, parent: int, n: int, i: int)
    requires c.Slot(parent) && c.Slot(n) && parent != n && c.Slot(i)
    ensures var d := Exit(c, parent, n);
      && |d.slots| == |c.slots| && !Armed(d.slots, n) && !d.slots[n].live
      && d.slots[parent].child == c.slots[parent].child + c.slots[n].user + c.slots[n].child
      && d.slots[parent].user == c.slots[parent].user && (i != parent && i != n ==> d.slots[i] == c.slots[i])
  {
  }

  // ---------------------------------------------------------------- an alarm over a run

  /** The event gives slot n a new alarm, or takes its process away. */
  predicate Resets(e: Event, n: int) {
    (e.Alarm? && e.n == n) || (e.ForkEvent? && e.child == n) || (e.ExitEvent? && e.n == n)
  }

  /** The processes whose alarm goes off when clock_task serves a tick. */
  function Rung(c: Clock, bill: int): seq<int> { ClockTick(Transfer(c), bill).rung }

  /** Time does not go backwards. */
  ghost predicate TimeOk(c: Clock) { c.realtime >= 0 && c.pending >= 0 && c.lost >= 0 }

  lemma {:induction false} RunTime(run: seq<Clock>, events: seq<Event>, j: nat)
    requires Run(run, events) && j < |run|
    ensures TimeOk(run[j])
  {
    if j > 0 {
      RunTime(run, events, j - 1);
      assert Enabled(run[j - 1], events[j - 1]) && run[j - 1 + 1] == Apply(run[j - 1], events[j - 1]);
    }
  }

  lemma RunNext(run: seq<Clock>, events: seq<Event>, j: nat)
    requires Run(run, events) && j < |events|
    ensures |run| == |events| + 1 && Enabled(run[j], events[j]) && run[j + 1] == Apply(run[j], events[j])
  {
  }

  /** An event that does not reset the alarm of n leaves it, unless it goes off. */
  lemma AlarmStays(c: Clock, e: Event, n: int)
    requires ClockInv(c) && Enabled(c, e) && c.Slot(n) && !Resets(e, n)
    ensures |Apply(c, e).slots| == |c.slots|
    ensures e.HardInt? && n in Rung(c, e.bill) ==> Apply(c, e).slots[n].alarm == 0
    ensures !(e.HardInt? && n in Rung(c, e.bill)) ==> Apply(c, e).slots[n].alarm == c.slots[n].alarm
  {
    if e.HardInt? {
      ApplyKeeps(c, Message);
      RingsExactlyDue(Transfer(c), e.bill, n);
    }
  }

  /** n rings when its alarm is due, and only then. */
  lemma RingsWhenDue(c: Clock, bill: int, n: int)
    requires ClockInv(c) && c.Slot(n)
    ensures n in Rung(c, bill) <==> c.slots[n].alarm != 0 && c.slots[n].alarm <= Uptime(c)
  {
    ApplyKeeps(c, Message);
    RingsExactlyDue(Transfer(c), bill, n);
  }

  /** n has asked for an alarm of delta ticks in event i and has done nothing to it since, and from the time it is due
      until event j clock_task has served no tick. */
  ghost predicate Outstanding(run: seq<Clock>, events: seq<Event>, n: int, i: nat, j: nat) {
    && i < j <= |events| < |run| && run[0].Slot(n) && events[i].Alarm? && events[i].n == n && events[i].delta > 0
    && (forall k :: i < k < j ==> !Resets(events[k], n))
    && (forall k :: i < k < j && events[k].HardInt? ==> Uptime(run[k]) < run[i + 1].realtime + events[i].delta)
  }

  lemma {:induction false} SlotsStay(run: seq<Clock>, events: seq<Event>, n: int, j: nat)
    requires Run(run, events) && j < |run| && run[0].Slot(n)
    ensures run[j].Slot(n)
  {
    if j > 0 {
      SlotsStay(run, events, n, j - 1);
      RunNext(run, events, j - 1);
    }
  }

  lemma AlarmAsked(c: Clock, e: Event)
    requires Enabled(c, e) && e.Alarm? && e.delta > 0
    ensures var d := Apply(c, e); d.Slot(e.n) && d.slots[e.n].alarm == d.realtime + e.delta
  {
  }

  lemma {:induction false} AlarmPending(run: seq<Clock>, events: seq<Event>, n: int, i: nat, j: nat)
    requires Run(run, events) && Outstanding(run, events, n, i, j)
    ensures run[j].Slot(n) && run[i + 1].realtime >= 0
    ensures run[j].slots[n].alarm == run[i + 1].realtime + events[i].delta
    decreases j
  {
    hide Run, Apply, ClockInv, Rung, Resets, Enabled;
    SlotsStay(run, events, n, j);
    RunTime(run, events, i + 1);
    if j == i + 1 {
      RunNext(run, events, i);
      AlarmAsked(run[i], events[i]);
    } else {
      assert Outstanding(run, events, n, i, j - 1);
      AlarmPending(run, events, n, i, j - 1);
      RunNext(run, events, j - 1);
      TimeConserved(run, events, j - 1);
      AlarmStays(run[j - 1], events[j - 1], n);
      if events[j - 1].HardInt? { RingsWhenDue(run[j - 1], events[j - 1].bill, n); }
    }
  }

  /** An alarm asked for goes off when clock_task serves the first tick at or after the time asked for, and at no tick
      before. */
  lemma AlarmInTime(run: seq<Clock>, events: seq<Event>, n: int, i: nat, j: nat)
    requires Run(run, events) && j < |events| && Outstanding(run, events, n, i, j) && events[j].HardInt?
    ensures n in Rung(run[j], events[j].bill) <==> Uptime(run[j]) >= run[i + 1].realtime + events[i].delta
  {
    AlarmPending(run, events, n, i, j);
    TimeConserved(run, events, j);
    RingsWhenDue(run[j], events[j].bill, n);
  }

  /** It does not go off a second time. */
  lemma {:induction false} AlarmOnce(run: seq<Clock>, events: seq<Event>, n: int, i: nat, j: nat)
    requires Run(run, events) && i < j < |events| && run[0].Slot(n) && events[i].HardInt? && events[j].HardInt?
    requires run[i].Slot(n) && n in Rung(run[i], events[i].bill) && forall k :: i < k < j ==> !Resets(events[k], n)
    ensures n !in Rung(run[j], events[j].bill)
  {
    AlarmOff(run, events, n, i, j);
    TimeConserved(run, events, j);
    RingsWhenDue(run[j], events[j].bill, n);
  }

  lemma RunLength(run: seq<Clock>, events: seq<Event>)
    requires Run(run, events)
    ensures |run| == |events| + 1
  {
  }

  lemma GoesOff(c: Clock, e: Event, n: int)
    requires ClockInv(c) && Enabled(c, e) && c.Slot(n) && e.HardInt? && n in Rung(c, e.bill)
    ensures Apply(c, e).Slot(n) && Apply(c, e).slots[n].alarm == 0
  {
    hide ClockInv, Apply, Rung;
    AlarmStays(c, e, n);
  }

  lemma StaysOff(c: Clock, e: Event, n: int)
    requires ClockInv(c) && Enabled(c, e) && c.Slot(n) && c.slots[n].alarm == 0 && !Resets(e, n)
    ensures Apply(c, e).Slot(n) && Apply(c, e).slots[n].alarm == 0
  {
    hide ClockInv, Apply, Rung;
    AlarmStays(c, e, n);
  }

  lemma {:induction false} AlarmOff(run: seq<Clock>, events: seq<Event>, n: int, i: nat, j: nat)
    requires Run(run, events) && i < j <= |events| && run[0].Slot(n) && events[i].HardInt?
    requires n in Rung(run[i], events[i].bill) && forall k :: i < k < j ==> !Resets(events[k], n)
    ensures run[j].Slot(n) && run[j].slots[n].alarm == 0
    decreases j
  {
    hide Run, Apply, ClockInv, Rung, Resets, Enabled;
    RunLength(run, events);
    SlotsStay(run, events, n, j - 1);
    RunNext(run, events, j - 1);
    TimeConserved(run, events, j - 1);
    if j - 1 > i {
      AlarmOff(run, events, n, i, j - 1);
      StaysOff(run[j - 1], events[j - 1], n);
    } else {
      GoesOff(run[i], events[i], n);
    }
  }
}
