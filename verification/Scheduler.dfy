/** The priority scheduler, as steps of any number of CPUs that interleave at will. Each CPU
    scans the process table, keeping the lock of its champion while it takes the locks of
    later slots; then it runs the champion, which may take p->locks one at a time. */
module Scheduler {
  import opened ProcModes

  /** lock: the CPU that holds p->lock, or a number that is no CPU. */
  datatype Proc = Proc(mode: Mode, priority: int, lock: nat)

  /** k: the slot that the scan is at; h: the champion, or a number that is no slot. */
  datatype Pc =
    | Scan(k: nat, h: nat)        // before acquire(&p->lock)
    | Check(k: nat, h: nat)       // holding it
    | IntrWant(k: nat, j: nat)    // an interrupt before Scan(k) wants the lock of j
    | IntrHold(k: nat, j: nat)    // and holds it
    | SwitchedIn(p: nat)          // in process p, which still holds its lock
    | Run(p: nat)                 // in process p
    | Want(p: nat, j: nat)        // process p is waiting for the lock of j
    | Hold(p: nat, j: nat)        // process p holds the lock of j
    | SwitchedOut(p: nat)         // back in the scheduler, still holding the lock of p

  datatype Cpu = Cpu(pc: Pc, noff: int)

  datatype State = State(procs: seq<Proc>, cpus: seq<Cpu>)

  // ---------- what every reachable state satisfies ----------

  /** The CPU at pc holds the lock of slot j. */
  predicate Holds(pc: Pc, j: nat) {
    match pc
    case Scan(_, h) => j == h
    case Check(k, h) => j == k || j == h
    case IntrWant(_, _) => false
    case IntrHold(_, x) => j == x
    case SwitchedIn(p) => j == p
    case Run(_) => false
    case Want(_, _) => false
    case Hold(_, x) => j == x
    case SwitchedOut(p) => j == p
  }

  predicate InProcess(pc: Pc) { pc.SwitchedIn? || pc.Run? || pc.Want? || pc.Hold? || pc.SwitchedOut? }

  predicate SlotOk(pc: Pc, n: nat) {
    match pc
    case Scan(k, h) => k <= n && h <= n && (h < n ==> h < k)
    case Check(k, h) => k < n && h <= n && (h < n ==> h < k)
    case IntrWant(k, j) => k <= n && j < n
    case IntrHold(k, j) => k <= n && j < n
    case SwitchedIn(p) => p < n
    case Run(p) => p < n
    case Want(p, j) => p < n && j < n
    case Hold(p, j) => p < n && j < n
    case SwitchedOut(p) => p < n
  }

  /** noff counts the p->locks held. */
  predicate NoffOk(c: Cpu, n: nat) {
    match c.pc
    case Scan(_, h) => c.noff == if h < n then 1 else 0
    case Check(_, h) => c.noff == if h < n then 2 else 1
    case Run(_) => c.noff == 0
    case Want(_, _) => c.noff == 0
    case IntrWant(_, _) => c.noff == 0
    case _ => c.noff == 1
  }

  ghost predicate CpuOk(s: State, c: nat)
    requires c < |s.cpus|
  {
    var pc, n := s.cpus[c].pc, |s.procs|;
    && SlotOk(pc, n) && NoffOk(s.cpus[c], n)
    && ((pc.Scan? || pc.Check?) && pc.h < n ==> s.procs[pc.h].mode.RUNNABLE?)
    && (pc.SwitchedIn? || pc.Run? || pc.Want? || pc.Hold? ==> s.procs[pc.p].mode.RUNNING?)
    && (pc.SwitchedOut? ==> !s.procs[pc.p].mode.RUNNING?)
  }

  /** The lock of slot j is held by CPU c exactly if c is at a point where it holds it. */
  predicate LockOk(s: State, c: nat, j: nat)
    requires c < |s.cpus| && j < |s.procs|
  {
    s.procs[j].lock == c <==> Holds(s.cpus[c].pc, j)
  }

  /** No process is on two CPUs. */
  predicate Apart(s: State, c: nat, d: nat)
    requires c < |s.cpus| && d < |s.cpus|
  {
    c != d && InProcess(s.cpus[c].pc) && InProcess(s.cpus[d].pc) ==> s.cpus[c].pc.p != s.cpus[d].pc.p
  }

  ghost predicate Inv(s: State) {
    && (forall c: nat {:trigger CpuOk(s, c)} :: c < |s.cpus| ==> CpuOk(s, c))
    && (forall c: nat, j: nat {:trigger LockOk(s, c, j)} :: c < |s.cpus| && j < |s.procs| ==> LockOk(s, c, j))
    && (forall c: nat, d: nat {:trigger Apart(s, c, d)} :: c < |s.cpus| && d < |s.cpus| ==> Apart(s, c, d))
  }

  // ---------- steps ----------

  function PutCpu(s: State, c: nat, pc: Pc, noff: int): State
    requires c < |s.cpus|
  {
    s.(cpus := s.cpus[c := Cpu(pc, noff)])
  }

  function PutProc(s: State, j: nat, p: Proc): State
    requires j < |s.procs|
  {
    s.(procs := s.procs[j := p])
  }

  /** No CPU holds the lock. */
  predicate Unlocked(s: State, j: nat)
    requires j < |s.procs|
  {
    s.procs[j].lock >= |s.cpus|
  }

  function Locked(s: State, j: nat, c: nat): State
    requires j < |s.procs|
  {
    PutProc(s, j, s.procs[j].(lock := c))
  }

  function Released(s: State, j: nat): State
    requires j < |s.procs|
  {
    PutProc(s, j, s.procs[j].(lock := |s.cpus|))
  }

  ghost predicate AcquireNext(s: State, c: nat, s': State) {
    c < |s.cpus| && s.cpus[c].pc.Scan? &&
    var k, h := s.cpus[c].pc.k, s.cpus[c].pc.h;
    k < |s.procs| && Unlocked(s, k) && s' == PutCpu(Locked(s, k, c), c, Check(k, h), s.cpus[c].noff + 1)
  }

  /** A new champion; the old one's lock is released. */
  ghost predicate NewChampion(s: State, c: nat, s': State) {
    c < |s.cpus| && s.cpus[c].pc.Check? &&
    var k, h, noff := s.cpus[c].pc.k, s.cpus[c].pc.h, s.cpus[c].noff;
    k < |s.procs| && s.procs[k].mode.RUNNABLE? &&
    if h >= |s.procs| then s' == PutCpu(s, c, Scan(k + 1, k), noff)
    else s.procs[k].priority > s.procs[h].priority && s' == PutCpu(Released(s, h), c, Scan(k + 1, k), noff - 1)
  }

  ghost predicate PassOver(s: State, c: nat, s': State) {
    c < |s.cpus| && s.cpus[c].pc.Check? &&
    var k, h, noff := s.cpus[c].pc.k, s.cpus[c].pc.h, s.cpus[c].noff;
    k < |s.procs| && (s.procs[k].mode.RUNNABLE? ==> h < |s.procs| && s.procs[k].priority <= s.procs[h].priority)
    && s' == PutCpu(Released(s, k), c, Scan(k + 1, h), noff - 1)
  }

  /** Nothing to run. */
  ghost predicate StartOver(s: State, c: nat, s': State) {
    c < |s.cpus| && s.cpus[c].pc.Scan? && s.cpus[c].pc.k >= |s.procs| && s.cpus[c].pc.h >= |s.procs|
    && s' == PutCpu(s, c, Scan(0, |s.procs|), s.cpus[c].noff)
  }

  /** The champion runs: p->state = RUNNING and swtch. */
  ghost predicate SwitchIn(s: State, c: nat, s': State) {
    c < |s.cpus| && s.cpus[c].pc.Scan? && s.cpus[c].pc.k >= |s.procs| && s.cpus[c].pc.h < |s.procs| &&
    var h := s.cpus[c].pc.h;
    s' == PutCpu(PutProc(s, h, s.procs[h].(mode := RUNNING)), c, SwitchedIn(h), s.cpus[c].noff)
  }

  /** The process releases the lock that the scheduler took. */
  ghost predicate GetGoing(s: State, c: nat, s': State) {
    c < |s.cpus| && s.cpus[c].pc.SwitchedIn? && s.cpus[c].pc.p < |s.procs|
    && s' == PutCpu(Released(s, s.cpus[c].pc.p), c, Run(s.cpus[c].pc.p), s.cpus[c].noff - 1)
  }

  ghost predicate WantLock(s: State, c: nat, j: nat, s': State) {
    c < |s.cpus| && s.cpus[c].pc.Run? && j < |s.procs| && s' == PutCpu(s, c, Want(s.cpus[c].pc.p, j), s.cpus[c].noff)
  }

  ghost predicate TakeLock(s: State, c: nat, s': State) {
    c < |s.cpus| && s.cpus[c].pc.Want? &&
    var p, j := s.cpus[c].pc.p, s.cpus[c].pc.j;
    j < |s.procs| && Unlocked(s, j) && s' == PutCpu(Locked(s, j, c), c, Hold(p, j), s.cpus[c].noff + 1)
  }

  /** While interrupts are on, that is, with no p->lock held, a device may interrupt the scan; its
      handler calls wakeup, which takes one p->lock after another. */
  ghost predicate Interrupt(s: State, c: nat, j: nat, s': State) {
    c < |s.cpus| && s.cpus[c].pc.Scan? && s.cpus[c].pc.h >= |s.procs| && j < |s.procs|
    && s' == PutCpu(s, c, IntrWant(s.cpus[c].pc.k, j), s.cpus[c].noff)
  }

  ghost predicate IntrTake(s: State, c: nat, s': State) {
    c < |s.cpus| && s.cpus[c].pc.IntrWant? &&
    var k, j := s.cpus[c].pc.k, s.cpus[c].pc.j;
    j < |s.procs| && Unlocked(s, j) && s' == PutCpu(Locked(s, j, c), c, IntrHold(k, j), s.cpus[c].noff + 1)
  }

  /** The handler lets the lock go; the scan goes on, or the next interrupt comes. */
  ghost predicate IntrDrop(s: State, c: nat, s': State) {
    c < |s.cpus| && s.cpus[c].pc.IntrHold? && s.cpus[c].pc.j < |s.procs|
    && s' == PutCpu(Released(s, s.cpus[c].pc.j), c, Scan(s.cpus[c].pc.k, |s.procs|), s.cpus[c].noff - 1)
  }

  /** Under its lock a process that neither runs nor is runnable may change state, as wakeup,
      kill, fork, allocproc and freeproc do. */
  ghost predicate ChangeOther(s: State, c: nat, mode: Mode, priority: int, s': State) {
    c < |s.cpus| && (s.cpus[c].pc.Hold? || s.cpus[c].pc.IntrHold?) &&
    var j := s.cpus[c].pc.j;
    && j < |s.procs| && !s.procs[j].mode.RUNNING? && !s.procs[j].mode.RUNNABLE? && !mode.RUNNING?
    && s' == PutProc(s, j, s.procs[j].(mode := mode, priority := priority))
  }

  ghost predicate DropLock(s: State, c: nat, s': State) {
    c < |s.cpus| && s.cpus[c].pc.Hold? && s.cpus[c].pc.j < |s.procs|
    && s' == PutCpu(Released(s, s.cpus[c].pc.j), c, Run(s.cpus[c].pc.p), s.cpus[c].noff - 1)
  }

  /** sched by a process that holds its own lock and has changed its state. */
  ghost predicate SwitchOut(s: State, c: nat, mode: Mode, s': State) {
    c < |s.cpus| && s.cpus[c].pc.Hold? && s.cpus[c].pc.j == s.cpus[c].pc.p && s.cpus[c].pc.p < |s.procs| &&
    var p := s.cpus[c].pc.p;
    (mode.RUNNABLE? || mode.SLEEPING? || mode.ZOMBIE?)
    && s' == PutCpu(PutProc(s, p, s.procs[p].(mode := mode)), c, SwitchedOut(p), s.cpus[c].noff)
  }

  /** The scheduler releases the lock of the process that it ran. */
  ghost predicate ScanAgain(s: State, c: nat, s': State) {
    c < |s.cpus| && s.cpus[c].pc.SwitchedOut? && s.cpus[c].pc.p < |s.procs|
    && s' == PutCpu(Released(s, s.cpus[c].pc.p), c, Scan(0, |s.procs|), s.cpus[c].noff - 1)
  }
}
