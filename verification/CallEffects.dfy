/**
 What every entry point of the kernel does to the process table and the queues, in terms of the fields: whose flags
 change, who is readied or blocked, which message and which signal goes where.
 */
module CallEffects {
  import opened Lists
  import opened KernelState
  import opened Messages
  import opened Rendezvous
  import opened SystemTask
  import opened KernelRuns
  import opened KernelInvariant
  import opened QueueEffects

  // ---------------------------------------------------------------- mini_send

  /** c may be what d waits for. */
  predicate WaitsFor(d: Proc, c: int) {
    d.receiving && !d.sending && (d.getfrom == ANY || d.getfrom == c)
  }

  /** A user may send to MM and FS only, nobody to an unused slot; such a send and a deadlock change nothing. */
  lemma SendRefusedIff(s: State, c: int, d: int)
    requires Members(s) && s.Slot(c) && (s.p[c].priority == User || s.Slot(d))
    ensures SendStatus(s, c, d) == BadDestination <==>
      (s.p[c].priority == User && d != s.Mm() && d != s.Fs()) || (s.Slot(d) && s.p[d].priority == Unused)
    ensures SendStatus(s, c, d) != Ok ==> MiniSend(s, c, d) == s
    ensures SendStatus(s, c, d) == Ok || SendStatus(s, c, d) == BadDestination || SendStatus(s, c, d) == Locked
  {
  }

  /** A message that is accepted ends the wait of its destination and changes nobody else; if the destination does not
      wait for it, the caller blocks on it and is the last on its caller queue. */
  lemma SendEffect(s: State, c: int, d: int)
    requires Members(s) && s.Slot(c) && s.p[c].Live() && s.Slot(d) && SendStatus(s, c, d) == Ok
    requires WaitsFor(s.p[d], c) ==> s.p[d].Live()
    ensures var r := MiniSend(s, c, d);
      if WaitsFor(s.p[d], c) then FreedAs(s, r, d, s.p[d].(receiving := false))
      else
        && r.cq == s.cq[d := s.cq[d] + [c]]
        && BlockedAs(s, r.(cq := s.cq), c, s.p[c].(sending := true, sendto := d))
  {
    hide FreedAs, BlockedAs, Block, Unblock, SendStatus;
    if WaitsFor(s.p[d], c) {
      UnblockEffect(s, d, s.p[d].(receiving := false));
    } else {
      var e := s.p[c].(sending := true, sendto := d);
      BlockEffect(s, c, e);
      assert MiniSend(s, c, d).(cq := s.cq) == Block(s, c, e);
    }
  }

  // ---------------------------------------------------------------- mini_rec

  /** x is the first on the caller queue from whom c, which asks for src, takes a message. */
  ghost predicate FirstSender(q: seq<int>, src: int, x: int) {
    exists j :: SenderAt(q, src, j) && q[j] == x
  }

  predicate SenderAt(q: seq<int>, src: int, j: int) {
    0 <= j < |q| && (src == ANY || src == q[j]) && forall i :: 0 <= i < j ==> !(src == ANY || src == q[i])
  }

  /** A message of somebody who is waiting to send: the first in the queue whom c accepts is released. */
  lemma ReceiveTakes(s: State, c: int, src: int, x: int)
    requires Members(s) && s.Slot(c) && s.p[c].Live() && s.p[s.Mm()].Live()
    requires !s.p[c].sending && FirstSender(s.cq[c], src, x)
    ensures s.Slot(x)
    ensures var r := MiniRec(s, c, src);
      && LeftBy(s.cq[c], x, r.cq[c]) && r.cq == s.cq[c := r.cq[c]]
      && FreedAs(s, r.(cq := s.cq), x, s.p[x].(sending := false))
  {
    var q := s.cq[c];
    var j :| SenderAt(q, src, j) && q[j] == x;
    var f := FindSender(q, src);
    assert f == j;
    hide LeftBy, FreedAs, Members, FindSender, AcceptSender;
    AcceptEffect(s, c, x);
  }

  lemma NextSender(q: seq<int>, src: int)
    requires FindSender(q, src) >= 0
    ensures exists x :: FirstSender(q, src, x)
  {
    assert SenderAt(q, src, FindSender(q, src));
    assert FirstSender(q, src, q[FindSender(q, src)]);
  }

  /** Nobody is waiting to send what c asks for, or c is itself blocked in the send half: then an interrupt that found
      its task busy is taken, and only if there is none does the caller block. */
  lemma ReceiveWaits(s: State, c: int, src: int)
    requires Members(s) && s.Slot(c) && s.p[c].Live() && s.p[s.Mm()].Live()
    requires s.p[c].sending || forall x :: !FirstSender(s.cq[c], src, x)
    ensures var r := MiniRec(s, c, src);
      if !s.p[c].sending && s.p[c].intBlocked && (src == ANY || src == s.Hardware())
      then r == s.(p := s.p[c := s.p[c].(intBlocked := false)])
      else Awaited(s, r, c, src)
  {
    var q := s.cq[c];
    var f := FindSender(q, src);
    if f >= 0 { NextSender(q, src); }
    hide Awaited, Members, FindSender, AwaitMessage;
    if !(!s.p[c].sending && s.p[c].intBlocked && (src == ANY || src == s.Hardware())) { AwaitEffect(s, c, src); }
  }

  lemma AcceptEffect(s: State, c: int, x: int)
    requires Members(s) && s.Slot(c) && x in s.cq[c]
    ensures s.Slot(x) && s.p[x].Live()
    ensures var r := AcceptSender(s, c, x);
      && LeftBy(s.cq[c], x, r.cq[c]) && r.cq == s.cq[c := r.cq[c]]
      && FreedAs(s, r.(cq := s.cq), x, s.p[x].(sending := false))
  {
    var j :| 0 <= j < |s.cq[c]| && s.cq[c][j] == x;
    var t := s.(cq := s.cq[c := Remove(s.cq[c], x)]);
    RemoveEffect(s.cq[c], x);
    FewerCallers(s, t, c, x);
    UnblockEffect(t, x, s.p[x].(sending := false));
    hide LeftBy;
    FreedFrame(t, AcceptSender(s, c, x), x, s.p[x].(sending := false), s.cq);
  }

  lemma FewerCallers(s: State, t: State, c: int, x: int)
    requires Members(s) && s.Slot(c) && t == s.(cq := s.cq[c := Remove(s.cq[c], x)])
    ensures Members(t)
  {
    forall d, j | 0 <= d < |t.cq| && 0 <= j < |t.cq[d]| ensures 0 <= t.cq[d][j] < |t.p| && t.p[t.cq[d][j]].Live() {
      assert t.cq[d][j] in s.cq[d];
      var a :| 0 <= a < |s.cq[d]| && s.cq[d][a] == t.cq[d][j];
    }
  }

  /** Caller queues do not matter to ready(). */
  lemma FreedFrame(s: State, r: State, i: int, e: Proc, cq: seq<seq<int>>)
    requires s.Wf() && s.Slot(i) && FreedAs(s, r, i, e) && |cq| == |s.cq|
    ensures FreedAs(s.(cq := cq), r.(cq := cq), i, e)
  {
    if e.Runnable() {
      var t := s.(p := s.p[i := e]);
      assert Readied(t, r, i);
      assert r.(cq := cq) == t.(cq := cq, q := r.q, cur := r.cur);
    }
  }

  /** The caller has blocked, and a memory manager that now listens has been told of pending signals. */
  ghost predicate Awaited(s: State, r: State, c: int, src: int)
    requires s.Wf() && s.Slot(c)
  {
    exists t: State ::
      && t.Wf() && BlockedAs(s, t, c, s.p[c].(receiving := true, getfrom := src))
      && if t.sigProcs > 0 && c == t.Mm() && src == ANY then Informed(t, r) else r == t
  }

  lemma AwaitEffect(s: State, c: int, src: int)
    requires Members(s) && s.Slot(c) && s.p[c].Live() && s.p[s.Mm()].Live()
    ensures Awaited(s, AwaitMessage(s, c, src), c, src)
  {
    hide BlockedAs, Block, Inform, Informed;
    var e := s.p[c].(receiving := true, getfrom := src);
    var t := Block(s, c, e);
    BlockEffect(s, c, e);
    if t.sigProcs > 0 && c == t.Mm() && src == ANY { InformEffect(t); }
  }

  // ---------------------------------------------------------------- sys_call

  /** Who may call what, and in which order a call is carried out; one that is refused changes nothing. */
  lemma CallEffect(s: State, fn: Function, sd: int)
    requires Members(s) && s.Slot(s.cur) && s.p[s.cur].Live() && s.p[s.Mm()].Live()
    requires s.p[s.cur].priority == User || fn == Receive || s.Slot(sd) || !(s.Slot(sd) || sd == ANY)
    ensures var (status, r) := SysCall(s, fn, sd);
      && (status == BadSource <==> !(0 <= sd < |s.p|) && sd != ANY)
      && (status == NoPermission <==> (0 <= sd < |s.p| || sd == ANY) && s.p[s.cur].priority == User && fn != Both)
      && (status != Ok ==> r == s)
      && (status != BadSource && status != NoPermission ==>
            && status == (if fn == Receive then Ok else SendStatus(s, s.cur, sd))
            && (status == Ok ==>
                  var t := if fn == Receive then s else MiniSend(s, s.cur, sd);
                  Members(t) && t.Slot(s.cur) && t.p[s.cur].Live() && t.p[t.Mm()].Live()
                  ==> r == if fn == Send then t else MiniRec(t, s.cur, sd)))
  {
    hide MiniRec, Deliver, QueueSender, Members;
  }

  /** The send half of a user's sendrec. */
  lemma SendHalf(s: State, c: int, d: int)
    requires Members(s) && s.Slot(c) && s.Slot(d) && c != d && s.p[c].Live() && SendStatus(s, c, d) == Ok
    requires WaitsFor(s.p[d], c) ==> s.p[d].Live()
    ensures var t := MiniSend(s, c, d);
      if WaitsFor(s.p[d], c) then t.p == s.p[d := s.p[d].(receiving := false)] && t.cq == s.cq
      else t.p == s.p[c := s.p[c].(sending := true, sendto := d)]
  {
    hide Members, SendStatus;
  }

  /** With nothing to take, the receive half blocks. */
  lemma ReceiveHalf(t: State, c: int, src: int)
    requires Members(t) && t.Slot(c) && t.p[c].Live() && t.p[t.Mm()].Live() && c != t.Mm() && !t.p[c].intBlocked
    requires t.p[c].sending || (src != ANY && src !in t.cq[c])
    ensures MiniRec(t, c, src).p == t.p[c := t.p[c].(receiving := true, getfrom := src)]
  {
    assert t.Wf();
    hide Members;
    var j := FindSender(t.cq[c], src);
    assert j >= 0 ==> t.cq[c][j] in t.cq[c];
  }

  /** A user's sendrec, once accepted, blocks the user until the answer comes: it waits for its destination, and is
      still sending exactly if the destination was not waiting for it. */
  lemma SendrecWaits(s: State, sd: int)
    requires Inv(s) && Members(s) && s.cur != s.IdleSlot() && s.p[s.cur].Live() && s.p[s.Mm()].Live()
    requires s.p[s.cur].priority == User && SysCall(s, Both, sd).0 == Ok
    ensures s.Slot(sd)
    ensures var c, r := s.cur, SysCall(s, Both, sd).1;
      && |r.p| == |s.p| && r.p[c].receiving && r.p[c].getfrom == sd && (r.p[c].sending <==> !WaitsFor(s.p[sd], c))
      && (r.p[c].sending ==> r.p[c].sendto == sd)
      && (WaitsFor(s.p[sd], c) ==> !r.p[sd].receiving)
  {
    var c := s.cur;
    assert s.Wf();
    hide Inv, Members, MiniSend, MiniRec, SendStatus;
    RunnerSound(s);
    SendrecFacts(s, c, sd);
    SendHalf(s, c, sd);
    ReceiveHalf(MiniSend(s, c, sd), c, sd);
  }

  lemma SendrecFacts(s: State, c: int, sd: int)
    requires Inv(s) && s.Slot(c) && s.p[c].priority == User && s.p[c].Runnable() && SendStatus(s, c, sd) == Ok
    ensures s.Slot(sd) && s.p[sd].Live() && sd != c && c != s.Mm() && !s.p[c].intBlocked
    ensures WaitsFor(s.p[sd], c) ==> sd !in s.cq[c]
  {
    SoundSlot(s.nt, s.p, s.cq, c);
    assert sd in s.cq[c] <==> SendsTo(s.p, sd, c);
  }

  // ---------------------------------------------------------------- inform

  /** x is the first process from the servers on with the PENDING flag. */
  predicate TellsOf(s: State, x: int)
    requires s.Wf()
  {
    s.Mm() <= x < |s.p| && s.p[x].pending && forall i :: s.Mm() <= i < x ==> !s.p[i].pending
  }

  /** The memory manager is no longer waiting and has the signals of the first process with PENDING, whose set is empty
      and whose flag is off; nobody else changes, and somebody has been picked. */
  ghost predicate Informed(s: State, r: State)
    requires s.Wf()
  {
    && ((forall x :: !TellsOf(s, x)) ==> r == s)
    && forall x :: TellsOf(s, x) ==> TellingOf(s, r, x)
  }

  ghost predicate TellingOf(s: State, r: State, x: int)
    requires s.Wf() && s.Slot(x)
  {
    exists t: State ::
      && FreedAs(s, t, s.Mm(), s.p[s.Mm()].(receiving := false)) && |t.p| == |s.p|
      && Members(HandedOver(s, t, x)) && Picked(HandedOver(s, t, x), r)
  }

  function EmptiedSet(e: Proc): Proc { e.(pending := false, pendingSet := {}) }

  /** t with the signals that x had in s handed over. */
  function HandedOver(s: State, t: State, x: int): State
    requires s.Wf() && s.Slot(x) && t.Slot(x)
  {
    t.(p := t.p[x := EmptiedSet(t.p[x])], sigProcs := s.sigProcs - 1,
       told := s.told[x := s.told[x] + |s.p[x].pendingSet|])
  }

  lemma InformEffect(s: State)
    requires Members(s) && s.p[s.Mm()].Live()
    ensures Informed(s, Inform(s))
  {
    hide FreedAs, Picked, Unblock, Pick;
    var x := FirstPending(s.p, s.nt);
    if x < |s.p| {
      assert TellsOf(s, x) && forall y :: TellsOf(s, y) ==> y == x;
      TellEffect(s, x);
    }
  }

  lemma TellEffect(s: State, x: int)
    requires Members(s) && s.p[s.Mm()].Live() && x == FirstPending(s.p, s.nt) < |s.p|
    ensures TellingOf(s, Inform(s), x)
  {
    var t := Deliver(s, s.Mm());
    UnblockEffect(s, s.Mm(), s.p[s.Mm()].(receiving := false));
    InformPicks(s, x);
    hide FreedAs, Picked, Members, Deliver, Inform, Pick, HandedOver;
    PickEffect(HandedOver(s, t, x));
  }

  lemma InformPicks(s: State, x: int)
    requires Members(s) && s.p[s.Mm()].Live() && x == FirstPending(s.p, s.nt) < |s.p|
    ensures var u := HandedOver(s, Deliver(s, s.Mm()), x); Members(u) && Inform(s) == Pick(u)
  {
    var t, m := Deliver(s, s.Mm()), s.(sigProcs := s.sigProcs - 1);
    PendingLive(s, x);
    assert t.p[x].Live() && t.told == s.told && |t.p| == |s.p|;
    hide Pick, Deliver, Members, HandedOver, FirstPending, Inform;
    HandedOverMembers(s, t, x);
    SignalsAside(s, m);
    DeliverFrame(s, m);
    SameHandOver(s, t, Deliver(m, m.Mm()), x);
    InformUnfolds(s, x, m, HandedOver(s, t, x));
  }

  lemma SameHandOver(s: State, t: State, d: State, x: int)
    requires s.Wf() && s.Slot(x) && t.Slot(x) && d == t.(sigProcs := s.sigProcs - 1) && t.told == s.told
    ensures d.(p := d.p[x := EmptiedSet(d.p[x])], told := d.told[x := d.told[x] + |s.p[x].pendingSet|])
      == HandedOver(s, t, x)
  {
  }

  lemma InformUnfolds(s: State, x: int, m: State, u: State)
    requires Members(s) && s.p[s.Mm()].Live() && x == FirstPending(s.p, s.nt) < |s.p| && Members(u)
    requires m == s.(sigProcs := s.sigProcs - 1) && Members(m)
    requires var d := Deliver(m, m.Mm());
      u == d.(p := d.p[x := EmptiedSet(d.p[x])], told := d.told[x := d.told[x] + |s.p[x].pendingSet|])
    ensures Inform(s) == Pick(u)
  {
    hide Pick, Deliver, Members, FirstPending;
  }

  lemma HandedOverMembers(s: State, t: State, x: int)
    requires s.Wf() && Members(t) && t.Slot(x) && s.Slot(x) && t.p[x].Live() && |t.p| == |s.p|
    ensures Members(HandedOver(s, t, x))
  {
    UpdateKeepsMembers(t, x, EmptiedSet(t.p[x]));
    var v := t.(p := t.p[x := EmptiedSet(t.p[x])]);
    hide Members;
    SignalsAside(v, HandedOver(s, t, x));
  }

  lemma PendingLive(s: State, x: int)
    requires Members(s) && s.Slot(x) && s.p[x].pending
    ensures s.p[x].Live()
  {
  }

  /** Signal counters are no concern of the queues. */
  lemma SignalsAside(s: State, t: State)
    requires Members(s) && t == s.(sigProcs := t.sigProcs, told := t.told) && |t.told| == |s.told|
    ensures Members(t)
  {
  }

  lemma DeliverFrame(s: State, m: State)
    requires Members(s) && Members(m) && s.p[s.Mm()].Live() && m == s.(sigProcs := m.sigProcs)
    ensures Deliver(m, m.Mm()) == Deliver(s, s.Mm()).(sigProcs := m.sigProcs)
  {
  }

  // ---------------------------------------------------------------- cause_sig, do_endsig

  /** A signal that is pending already is not recorded twice; any other is added to the set and counted. The first one
      blocks the process and is announced at once to a memory manager that listens. */
  lemma CauseSigEffect(s: State, n: int, sig: int)
    requires Members(s) && s.Slot(n) && s.p[n].Live() && s.p[s.Mm()].Live()
    ensures var r, e := CauseSig(s, n, sig), s.p[n];
      var f := e.(pendingSet := e.pendingSet + {sig}, pendcount := e.pendcount + 1);
      if sig in e.pendingSet then r == s
      else if e.pending then r == s.(p := s.p[n := f])
      else Signalled(s, r, n, f.(pending := true, sigPending := true))
  {
    hide BlockedAs, Block, Inform, Informed, Members;
    var e := s.p[n];
    if sig !in e.pendingSet && !e.pending {
      var f := e.(pendingSet := e.pendingSet + {sig}, pendcount := e.pendcount + 1,
                  pending := true, sigPending := true);
      FirstSignal(s, n, f);
    }
  }

  ghost predicate Signalled(s: State, r: State, n: int, f: Proc)
    requires s.Wf() && s.Slot(n)
  {
    exists t: State ::
      && t.Wf() && t.sigProcs == s.sigProcs && BlockedAs(s, t, n, f)
      && Announced(t.(sigProcs := t.sigProcs + 1), r)
  }

  /** A memory manager that waits for anybody is told. */
  ghost predicate Announced(t: State, r: State)
    requires t.Wf()
  {
    if t.p[t.Mm()].receiving && t.p[t.Mm()].getfrom == ANY then Informed(t, r) else r == t
  }

  lemma FirstSignal(s: State, n: int, f: Proc)
    requires Members(s) && s.Slot(n) && s.p[n].Live() && s.p[s.Mm()].Live() && f.Live() && SameClass(f, s.p[n])
    ensures Signalled(s, SignalFirst(s, n, f), n, f)
  {
    var t := Block(s, n, f);
    BlockEffect(s, n, f);
    var u := t.(sigProcs := t.sigProcs + 1);
    SignalsAside(t, u);
    assert u.p[u.Mm()].Live();
    hide BlockedAs, Block, Inform, Informed, Members;
    InformEffect(u);
    assert Announced(u, SignalFirst(s, n, f));
  }

  /** One signal fewer; the last one readies the process, if nothing else keeps it. */
  lemma EndSigEffect(s: State, n: int)
    requires Members(s) && s.Slot(n)
    ensures var (status, r) := EndSig(s, n); var e := s.p[n];
      var f := e.(pendcount := e.pendcount - 1, sigPending := e.sigPending && e.pendcount != 1);
      var t := s.(told := s.told[n := s.told[n] - 1]);
      && (status == BadProcess <==> e.priority == Unused) && (status == BadProcess || status == Ok)
      && if !e.Live() || e.pendcount == 0 then r == s
         else if e.pendcount == 1 then FreedAs(t, r, n, f) else r == t.(p := t.p[n := f])
  {
    var e := s.p[n];
    if e.Live() && e.pendcount == 1 {
      var t := s.(told := s.told[n := s.told[n] - 1]);
      SignalsAside(s, t);
      UnblockEffect(t, n, e.(pendcount := 0, sigPending := false));
    }
  }

  // ---------------------------------------------------------------- interrupts

  /** A task that waits for an interrupt is readied with it; for any other the interrupt is put on record. */
  lemma InterruptEffect(s: State, t: int)
    requires Members(s) && IsTask(s.p, t)
    ensures var r, e := Interrupt(s, t), s.p[t];
      if e.receiving && !e.sending && (e.getfrom == ANY || e.getfrom == s.Hardware())
      then
        var u := s.(p := s.p[t := e.(receiving := false, intBlocked := false)]);
        Readied(u, r, t)
      else r == s.(p := s.p[t := e.(intBlocked := true)])
  {
    var e := s.p[t];
    if e.receiving && !e.sending && (e.getfrom == ANY || e.getfrom == s.Hardware()) {
      var f := e.(receiving := false, intBlocked := false);
      UpdateKeepsMembers(s, t, f);
      ReadyEffect(s.(p := s.p[t := f]), t);
    }
  }

  // ---------------------------------------------------------------- process management

  /** T_STOP takes a ready process off its queue and sets P_STOP; T_RESUME clears it and readies a process that has no
      flag left; a new map and the end of exec do the same with NO_MAP and RECEIVING. */
  lemma FlagEffects(s: State, n: int)
    requires Members(s) && s.Slot(n) && s.p[n].Live() && s.p[s.Mm()].Live()
    ensures BlockedAs(s, Stop(s, n), n, s.p[n].(stopped := true))
    ensures FreedAs(s, Resume(s, n), n, s.p[n].(stopped := false))
    ensures NewMap(s, n).0 == Ok
    ensures if s.p[n].Runnable() then NewMap(s, n).1 == s else FreedAs(s, NewMap(s, n).1, n, s.p[n].(noMap := false))
    ensures FreedAs(s, Exec(s, n, false, 0), n, s.p[n].(receiving := false))
  {
    BlockEffect(s, n, s.p[n].(stopped := true));
    UnblockEffect(s, n, s.p[n].(stopped := false));
    UnblockEffect(s, n, s.p[n].(noMap := false));
    UnblockEffect(s, n, s.p[n].(receiving := false));
    hide BlockedAs, FreedAs, Block, Unblock, Members;
  }

  /** A traced process that execs gets its SIGTRAP before its wait ends. */
  lemma TracedExecEffect(s: State, n: int, sigtrap: int)
    requires Members(s) && s.Slot(n) && s.p[n].Live() && s.p[s.Mm()].Live()
    ensures var t, r := CauseSig(s, n, sigtrap), Exec(s, n, true, sigtrap);
      t.Slot(n) ==> if t.p[n].Live() then FreedAs(t, r, n, t.p[n].(receiving := false)) else r == t
  {
    var t := CauseSig(s, n, sigtrap);
    if t.Slot(n) && t.p[n].Live() { UnblockEffect(t, n, t.p[n].(receiving := false)); }
    hide FreedAs, Members, CauseSig, Unblock;
  }

  /** do_fork: the child has the parent's fields and callers, but no map, no signals, no group and no history. */
  lemma ForkEffect(s: State, parent: int, child: int)
    requires s.Wf() && s.Slot(parent) && s.Slot(child)
    ensures var r := Fork(s, parent, child); var e, f := s.p[parent], r.p[child];
      && (forall i :: 0 <= i < |s.p| && i != child ==>
            && r.p[i] == s.p[i] && r.cq[i] == s.cq[i]
            && r.wait[i] == s.wait[i] && r.rr[i] == s.rr[i] && r.told[i] == s.told[i])
      && r.q == s.q && r.cur == s.cur && r.bill == s.bill && r.sigProcs == s.sigProcs && r.held == s.held
      && r.cq[child] == s.cq[parent] && r.wait[child] == 0 && r.rr[child] == 0 && r.told[child] == 0
      && f.priority == e.priority && f.sending == e.sending && f.receiving == e.receiving
      && f.getfrom == e.getfrom && f.sendto == e.sendto && f.intBlocked == e.intBlocked
      && f.noMap && !f.pending && !f.sigPending && !f.stopped && f.pendingSet == {} && f.pendcount == 0 && f.group == 0
  {
  }

  /** do_xit: nothing of the process is left but its slot. */
  lemma ExitEffect(s: State, n: int)
    requires Members(s) && s.Slot(n) && s.p[n].Live() && (s.p[n].sending ==> s.Slot(s.p[n].sendto))
    ensures var r := Xit(s, n);
      && r.p[n].priority == Unused && r.p[n].Runnable() && r.p[n].pendingSet == {} && r.p[n].pendcount == 0
      && r.told == s.told[n := 0] && r.sigProcs == (if s.p[n].pending then s.sigProcs - 1 else s.sigProcs)
      && (forall d :: 0 <= d < |s.cq| ==>
            if s.p[n].sending && s.p[n].sendto == d then LeftBy(s.cq[d], n, r.cq[d]) else r.cq[d] == s.cq[d])
      && BlockedAs(s, r.(cq := s.cq, told := s.told, sigProcs := s.sigProcs), n, r.p[n])
  {
    var r := Xit(s, n);
    if s.p[n].sending { RemoveEffect(s.cq[s.p[n].sendto], n); }
    var t := s.(cq := Unlink(s.p, s.cq, n), told := s.told[n := 0],
                sigProcs := if s.p[n].pending then s.sigProcs - 1 else s.sigProcs);
    assert LiveCallers(t.p, t.cq);
    assert Members(t);
    BlockEffect(t, n, r.p[n]);
    hide Picked, LeftBy;
    BlockedFrame(t, r, n, s);
  }

  /** Caller queues and signal counters are no concern of the ready queues. */
  lemma BlockedFrame(t: State, r: State, n: int, s: State)
    requires Members(s) && Members(t) && t.Slot(n) && t.p[n].Live() && r.Slot(n) && r == Block(t, n, r.p[n])
    requires t == s.(cq := t.cq, told := t.told, sigProcs := t.sigProcs)
    ensures BlockedAs(s, r.(cq := s.cq, told := s.told, sigProcs := s.sigProcs), n, r.p[n])
  {
    BlockEffect(s, n, r.p[n]);
    assert Block(s, n, r.p[n]) == r.(cq := s.cq, told := s.told, sigProcs := s.sigProcs);
  }

  /** do_setgroup: the group, and for group 3 the estimate; both counters start again, no queue is touched. */
  lemma SetGroupEffect(s: State, n: int, group: int, estimate: int)
    requires s.Wf() && s.Slot(n)
    ensures var (status, r) := SetGroup(s, n, group, estimate);
      && (status == Ok <==> s.p[n].priority == User) && (status == Ok || status == Invalid)
      && (status == Invalid ==> r == s)
      && (status == Ok ==>
            && r.p[n] == s.p[n].(group := group, estimate := r.p[n].estimate)
            && r.p[n].estimate == (if group == 3 then estimate else 100)
            && r == s.(p := s.p[n := r.p[n]], wait := s.wait[n := 0], rr := s.rr[n := 0]))
  {
  }
}
