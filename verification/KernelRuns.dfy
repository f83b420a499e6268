/**
 The kernel as one state machine whose steps are its entry points, and what every run keeps.
 */
module KernelRuns {
  import opened Lists
  import opened KernelState
  import opened ReadyQueues
  import opened Messages
  import opened Rendezvous
  import opened Signals
  import opened SystemTask

  ghost predicate RrInv(rr: seq<int>, aging: int) {
    (forall i :: 0 <= i < |rr| ==> 0 <= rr[i] < RR_QUANTUM) && 0 <= aging < AGING_TICK
  }

  ghost predicate HeldInv(p: seq<Proc>, held: seq<int>) {
    NoDup(held) && forall j :: 0 <= j < |held| ==> IsTask(p, held[j])
  }

  ghost predicate Inv(s: State) {
    && SchedInv(s) && MsgInv(s.nt, s.p, s.cq) && SigInv(s.p, s.told, s.sigProcs)
    && RrInv(s.rr, s.aging) && HeldInv(s.p, s.held)
  }

  datatype Step =
    | SysCallStep(fn: Function, srcDest: int)
    | InterruptStep(task: int)
    | HoldStep(task: int)
    | ServeHeldStep    // one round of unhold; interrupts may arrive between two of them
    | SignalStep(n: int, sig: int)
    | EndSigStep(n: int)
    | ForkStep(parent: int, child: int)
    | NewMapStep(n: int)
    | ExecStep(n: int, traced: bool, sigtrap: int)
    | ExitStep(n: int)
    | StopStep(n: int)
    | ResumeStep(n: int)
    | SetGroupStep(n: int, group: int, estimate: int)
    | TickStep
    | RescheduleStep

  /** System calls are carried out by a running task; cause_sig does not depend on who runs. */
  predicate TaskRuns(s: State) {
    s.Slot(s.cur) && s.p[s.cur].priority == Task
  }

  predicate IsUser(s: State, n: int) {
    s.Slot(n) && s.p[n].priority == User
  }

  /**
   What the kernel trusts its callers to respect: servers and tasks do not send to themselves or to ANY and
   never sendrec with ANY or HARDWARE; the memory manager ends only signals it was told of, forks into an unused
   slot, execs a process that waits for it, resumes a process it stopped and moves only blocked processes
   between groups; nobody is sending to a process that forks or exits.
   */
  ghost predicate Enabled(s: State, st: Step)
    requires Inv(s)
  {
    match st
    case SysCallStep(fn, sd) =>
      && s.cur != s.IdleSlot()
      && (s.p[s.cur].priority != User && fn != Receive ==>
        sd != s.cur && sd != ANY && (fn == Both ==> sd != s.Hardware()))
    case InterruptStep(t) => IsTask(s.p, t)
    case HoldStep(t) => IsTask(s.p, t)
    case ServeHeldStep => s.held != []
    case SignalStep(n, sig) => IsUser(s, n)
    case EndSigStep(n) => TaskRuns(s) && s.Slot(n) && (s.p[n].priority == User || s.p[n].priority == Unused)
      && (s.told[n] > 0 || s.p[n].pendcount == 0)
    case ForkStep(parent, child) =>
      && TaskRuns(s) && IsUser(s, parent) && s.Slot(child) && s.p[child].priority == Unused
      && !s.p[parent].sending && s.cq[parent] == []
    case NewMapStep(n) => TaskRuns(s)
    case ExecStep(n, traced, sigtrap) => TaskRuns(s) && IsUser(s, n) && s.p[n].receiving
    case ExitStep(n) => TaskRuns(s) && IsUser(s, n) && s.cq[n] == []
    case StopStep(n) => TaskRuns(s) && IsUser(s, n)
    case ResumeStep(n) => TaskRuns(s) && IsUser(s, n) && s.p[n].stopped
    case SetGroupStep(n, g, e) => TaskRuns(s) && s.Slot(n) && (s.p[n].priority == User ==> !s.p[n].Runnable())
    case TickStep => true
    case RescheduleStep => TaskRuns(s)
  }

  lemma HeldFirst(s: State)
    requires Inv(s) && Members(s) && s.held != []
    ensures Members(s.(held := s.held[1..])) && IsTask(s.p, s.held[0])
  {
  }

  ghost function Apply(s: State, st: Step): (r: State)
    requires Inv(s) && Enabled(s, st)
  {
    ExactMembers(s);
    match st
    case SysCallStep(fn, sd) => SysCall(s, fn, sd).1
    case InterruptStep(t) => Interrupt(s, t)
    case HoldStep(t) => HoldInterrupt(s, t)
    case ServeHeldStep => HeldFirst(s); Interrupt(s.(held := s.held[1..]), s.held[0])
    case SignalStep(n, sig) => CauseSig(s, n, sig)
    case EndSigStep(n) => EndSig(s, n).1
    case ForkStep(parent, child) => Fork(s, parent, child)
    case NewMapStep(n) => NewMap(s, n).1
    case ExecStep(n, traced, sigtrap) => Exec(s, n, traced, sigtrap)
    case ExitStep(n) => SoundSlot(s.nt, s.p, s.cq, n); Xit(s, n)
    case StopStep(n) => Stop(s, n)
    case ResumeStep(n) => Resume(s, n)
    case SetGroupStep(n, g, e) => SetGroup(s, n, g, e).1
    case TickStep => Tick(s)
    case RescheduleStep => Sched(s)
  }

  /** t follows from s by one enabled step. */
  ghost predicate Follows(s: State, st: Step, t: State) {
    Inv(s) && Enabled(s, st) && t == Apply(s, st)
  }

  /** A run: states, and the steps between them. */
  ghost predicate Run(run: seq<State>, steps: seq<Step>) {
    |run| == |steps| + 1 && forall j :: 0 <= j < |steps| ==> Follows(run[j], steps[j], run[j + 1])
  }

  lemma RunLength(run: seq<State>, steps: seq<Step>)
    requires Run(run, steps)
    ensures |run| == |steps| + 1
  {
  }

  lemma RunStep(run: seq<State>, steps: seq<Step>, j: nat)
    requires Run(run, steps) && j < |steps|
    ensures |run| == |steps| + 1 && Follows(run[j], steps[j], run[j + 1])
  {
  }
}
