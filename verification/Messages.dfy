/**
 Rendezvous message passing: mini_send, mini_rec, inform, interrupt and sys_call.
 */
module Messages {
  import opened Lists
  import opened KernelState
  import opened SendGraph

  datatype Status = Ok | BadSource | NoPermission | BadDestination | Locked | BadProcess | Invalid

  datatype Function = Send | Receive | Both

  /** A receiver that named src takes a message from slot x. */
  predicate Accepts(src: int, x: int) {
    src == ANY || src == x
  }

  /** The checks of mini_send; the walk of the deadlock check starts where the destination itself is sending to. */
  ghost function SendStatus(s: State, c: int, d: int): Status
    requires s.Wf() && s.Slot(c) && (s.p[c].priority == User || s.Slot(d))
  {
    if s.p[c].priority == User && d != s.Fs() && d != s.Mm() then BadDestination
    else if s.p[d].priority == Unused then BadDestination
    else if s.p[d].sending && Reaches(s.p, s.p[d].sendto, c) then Locked
    else Ok
  }

  /** d is blocked waiting for a message that slot c may send. */
  predicate Waits(e: Proc, c: int) {
    e.receiving && !e.sending && Accepts(e.getfrom, c)
  }

  /** The caller blocks and joins the end of the destination's caller queue. */
  function QueueSender(s: State, c: int, d: int): (r: State)
    requires Members(s) && s.Slot(c) && s.Slot(d)
    ensures r == s.(p := s.p[c := s.p[c].(sending := true, sendto := d)], cq := s.cq[d := s.cq[d] + [c]],
                    q := r.q, cur := r.cur, bill := r.bill, wait := r.wait, picks := r.picks)
    ensures s.p[c].Live() ==> Members(r)
  {
    var t := Block(s, c, s.p[c].(sending := true, sendto := d));
    t.(cq := t.cq[d := t.cq[d] + [c]])
  }

  function Deliver(s: State, d: int): (r: State)
    requires Members(s) && s.Slot(d) && s.p[d].Live()
    ensures r == s.(p := s.p[d := s.p[d].(receiving := false)], q := r.q, cur := r.cur)
    ensures Members(r)
  {
    Unblock(s, d, s.p[d].(receiving := false))
  }

  /** mini_send */
  ghost function MiniSend(s: State, c: int, d: int): (r: State)
    requires Members(s) && s.Slot(c) && (s.p[c].priority == User || s.Slot(d))
    ensures s.p[c].Live() ==> Members(r)
  {
    if SendStatus(s, c, d) != Ok then s
    else if Waits(s.p[d], c) then Deliver(s, d)
    else QueueSender(s, c, d)
  }

  /** Position of the first acceptable sender on a caller queue, or -1. */
  function FindSender(q: seq<int>, src: int): (j: int)
    ensures -1 <= j < |q|
    ensures j >= 0 ==> Accepts(src, q[j]) && forall i :: 0 <= i < j ==> !Accepts(src, q[i])
    ensures j < 0 ==> forall i :: 0 <= i < |q| ==> !Accepts(src, q[i])
  {
    if q == [] then -1
    else if Accepts(src, q[0]) then 0
    else
      var j := FindSender(q[1..], src);
      if j < 0 then -1 else j + 1
  }

  /** Lowest slot from i on with the PENDING flag, or the table size. */
  function FirstPending(p: seq<Proc>, i: int): (r: int)
    requires 0 <= i <= |p|
    ensures i <= r <= |p| && (r < |p| ==> p[r].pending) && forall j :: i <= j < r ==> !p[j].pending
    decreases |p| - i
  {
    if i == |p| || p[i].pending then i else FirstPending(p, i + 1)
  }

  ghost predicate MmListens(s: State)
    requires s.Wf()
  {
    s.p[s.Mm()].receiving && s.p[s.Mm()].getfrom == ANY
  }

  /**
   inform: hand the memory manager the signals of the first process that has some. It runs only when the
   memory manager is listening, so the send of mini_send is a delivery.
   */
  ghost function Inform(s: State): (r: State)
    requires Members(s) && s.p[s.Mm()].Live()
    ensures r == s.(p := r.p, q := r.q, cur := r.cur, bill := r.bill, wait := r.wait, picks := r.picks,
      sigProcs := r.sigProcs, told := r.told)
    ensures Members(r)
  {
    var x := FirstPending(s.p, s.nt);
    if x == |s.p| then s
    else
      var t := Deliver(s.(sigProcs := s.sigProcs - 1), s.Mm());
      var e := t.p[x].(pendingSet := {}, pending := false);
      assert e.Live() by { assert s.p[x].pending; }
      UpdateKeepsMembers(t, x, e);
      Pick(t.(p := t.p[x := e], told := t.told[x := t.told[x] + |s.p[x].pendingSet|]))
  }

  /** mini_rec */
  ghost function MiniRec(s: State, c: int, src: int): (r: State)
    requires Members(s) && s.Slot(c) && s.p[c].Live() && s.p[s.Mm()].Live()
    ensures Members(r)
  {
    var j := if s.p[c].sending then -1 else FindSender(s.cq[c], src);
    if j >= 0 then AcceptSender(s, c, s.cq[c][j])
    else if !s.p[c].sending && s.p[c].intBlocked && RxHardware(s, src) then TakeInterrupt(s, c)
    else AwaitMessage(s, c, src)
  }

  /** The caller takes the message of sender x, which is deblocked. */
  function AcceptSender(s: State, c: int, x: int): (r: State)
    requires Members(s) && s.Slot(c) && s.Slot(x) && s.p[x].Live()
    ensures r == s.(p := s.p[x := s.p[x].(sending := false)], cq := s.cq[c := Remove(s.cq[c], x)],
      q := r.q, cur := r.cur)
    ensures Members(r)
  {
    Unblock(s.(cq := s.cq[c := Remove(s.cq[c], x)]), x, s.p[x].(sending := false))
  }

  /** The caller takes an interrupt that had found it busy. */
  function TakeInterrupt(s: State, c: int): (r: State)
    requires Members(s) && s.Slot(c) && s.p[c].Live()
    ensures Members(r)
  {
    UpdateKeepsMembers(s, c, s.p[c].(intBlocked := false));
    s.(p := s.p[c := s.p[c].(intBlocked := false)])
  }

  /** No message is available: the caller blocks, and a memory manager that now listens is told of pending signals. */
  ghost function AwaitMessage(s: State, c: int, src: int): (r: State)
    requires Members(s) && s.Slot(c) && s.p[c].Live() && s.p[s.Mm()].Live()
    ensures Members(r)
  {
    var t := Block(s, c, s.p[c].(receiving := true, getfrom := src));
    if t.sigProcs > 0 && c == s.Mm() && src == ANY then Inform(t) else t
  }

  /** sys_call; the caller is the running process. */
  ghost function SysCall(s: State, fn: Function, sd: int): (r: (Status, State))
    requires Members(s) && s.Slot(s.cur) && s.p[s.cur].Live() && s.p[s.Mm()].Live()
    requires s.p[s.cur].priority == User || fn == Receive || s.Slot(sd) || !(s.Slot(sd) || sd == ANY)
    ensures Members(r.1)
  {
    var c := s.cur;
    if !(s.Slot(sd) || sd == ANY) then (BadSource, s)
    else if s.p[c].priority == User && fn != Both then (NoPermission, s)
    else if fn == Receive then (Ok, MiniRec(s, c, sd))
    else
      var st := SendStatus(s, c, sd);
      var t := MiniSend(s, c, sd);
      if fn == Send || st != Ok then (st, t)
      else (Ok, MiniRec(t, c, sd))
  }
}
