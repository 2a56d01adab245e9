/**
  The cleanup log: how the processes of one subcontext broadcast an operation and learn
  that everybody has carried it out.

  A state holds the shared fields of the root struct that the protocol uses, and for each
  registered process its private flush point, the position of its background thread and
  whether its main thread is posting.  A label names one indivisible step of one thread.
  Steps are cut where the source acquires a lock, so every interleaving that the locks
  allow is a run.  A lock is not a field: who holds it can be read off the positions.
*/
module CleanupLog {
  import opened Basics

  type Pid = nat

  /** A range of virtual addresses, in bytes. */
  datatype Range = Range(vaddr: nat, len: nat)

  datatype Op = Reserve(range: Range) | Abort

  datatype Step = Step(seqNum: nat, op: Op, ackTarg: nat, ackCount: nat)

  /** Where a background thread is, and thereby which locks it holds.  Steps of the log are
      named by their sequence numbers; `first` is the head this scan started from. */
  datatype Scan =
    | Idle                                          // waits for lastSeq to move
    | AtRoot                                        // root shared; waits for the head's lock
    | Hop(first: nat, at: nat)                      // `at` shared; waits for its successor
    | Work(first: nat, at: nat, flagged: bool)      // `at` exclusive, not yet acknowledged
    | Acked(first: nat, at: nat, flagged: bool)     // `at` exclusive, acknowledged
    | WantRoot                                      // must clean up; waits for the root lock
    | CleanEnter                                    // root exclusive; waits for the head's lock
    | Clean(at: nat)                                // root and head exclusive

  datatype Proc = Proc(flush: nat, scan: Scan, posting: bool)

  /** Who had to acknowledge a step when it was posted and who has done so since.  `ghosts`
      counts the units of ackTarg that belong to no process. */
  datatype Ledger = Ledger(counted: set<Pid>, acked: set<Pid>, ghosts: nat)

  /** History that no step of the protocol reads (see ObserverIsSilent). */
  datatype Observer = Observer(
    ledger: map<nat, Ledger>,   // by sequence number
    refused: nat,               // joins that were turned away after bumping procCount
    cleaner: Option<Pid>,       // the thread in charge of cleaning up
    stranded: bool,             // a thread in charge has died with its process
    reserveSeq: nat)            // the step that announces the pending reservation

  datatype State = State(
    lastSeq: nat,
    log: seq<Step>,
    tail: Option<nat>,          // the step that cleanupLog_tail points to
    pending: Option<Range>,
    procCount: nat,
    procs: map<Pid, Proc>,
    obs: Observer)

  datatype Label =
    | Join(p: Pid)
    | JoinRefused
    | PostBegin(p: Pid)
    | PostCommit(p: Pid, op: Op)
    | PostAbandon(p: Pid)
    | Enter(p: Pid)
    | LockHead(p: Pid)
    | HopNext(p: Pid)
    | Ack(p: Pid)
    | Advance(p: Pid)
    | TakeRoot(p: Pid)
    | TakeHead(p: Pid)
    | FreeHead(p: Pid)
    | Depart(p: Pid)

  // ----- the log as a list

  predicate InLog(log: seq<Step>, n: nat) {
    |log| > 0 && log[0].seqNum <= n < log[0].seqNum + |log|
  }

  function StepAt(log: seq<Step>, n: nat): Step
    requires InLog(log, n)
  {
    log[n - log[0].seqNum]
  }

  /** The last step, where a post hangs the next one. */
  function LastOf(log: seq<Step>): Option<nat> {
    if |log| == 0 then None else Some(log[|log| - 1].seqNum)
  }

  predicate Done(step: Step) {
    step.ackCount == step.ackTarg
  }

  predicate HeadDone(log: seq<Step>) {
    |log| > 0 && Done(log[0])
  }

  // ----- locks, read off the positions

  predicate HoldsExclusive(pr: Proc, n: nat) {
    match pr.scan
    case Work(_, at, _) => at == n
    case Acked(_, at, _) => at == n
    case Clean(at) => at == n
    case _ => false
  }

  predicate Holds(pr: Proc, n: nat) {
    HoldsExclusive(pr, n) || (pr.scan.Hop? && pr.scan.at == n)
  }

  predicate RootExclusive(pr: Proc) {
    pr.posting || pr.scan.CleanEnter? || pr.scan.Clean?
  }

  predicate RootShared(pr: Proc) {
    pr.scan.AtRoot?
  }

  /** The step whose lock the background thread is blocked on, if any. */
  function WaitsFor(s: State, pr: Proc): Option<nat> {
    match pr.scan
    case AtRoot => if |s.log| > 0 then Some(s.log[0].seqNum) else None
    case CleanEnter => if |s.log| > 0 then Some(s.log[0].seqNum) else None
    case Hop(_, at) => Some(at + 1)
    case Acked(_, at, _) => if InLog(s.log, at + 1) then Some(at + 1) else None
    case Clean(at) => if InLog(s.log, at + 1) then Some(at + 1) else None
    case _ => None
  }

  /** The thread is in charge of cleaning up, or will be when its scan ends. */
  predicate Flagged(pr: Proc) {
    match pr.scan
    case Work(_, _, flagged) => flagged
    case Acked(_, _, flagged) => flagged
    case WantRoot => true
    case CleanEnter => true
    case Clean(_) => true
    case _ => false
  }

  predicate RootUnlocked(s: State) {
    forall q :: q in s.procs ==> !RootExclusive(s.procs[q]) && !RootShared(s.procs[q])
  }

  predicate RootReadable(s: State) {
    forall q :: q in s.procs ==> !RootExclusive(s.procs[q])
  }

  predicate StepUnlocked(s: State, n: nat) {
    forall q :: q in s.procs ==> !Holds(s.procs[q], n)
  }

  predicate StepReadable(s: State, n: nat) {
    forall q :: q in s.procs ==> !HoldsExclusive(s.procs[q], n)
  }

  // ----- when a thread may move

  predicate IsTail(s: State, n: nat) {
    !InLog(s.log, n + 1)
  }

  /** The control point is reached.  A branch that ends in the source's TODO() or exit() has no step
      here: its thread stops. */
  predicate At(s: State, l: Label) {
    match l
    case Join(p) => p !in s.procs && s.pending.None?
    case JoinRefused => s.pending.Some?
    case PostBegin(p) => p in s.procs && s.procs[p].flush == s.lastSeq && s.procCount > 1
    case PostCommit(p, op) =>
      && p in s.procs && s.procs[p].posting
      && (op.Reserve? ==> s.pending.None? && op.range.len > 0)
    case PostAbandon(p) => p in s.procs && s.procs[p].posting
    case Enter(p) => p in s.procs && s.procs[p].scan.Idle? && s.procs[p].flush != s.lastSeq
    case LockHead(p) => p in s.procs && s.procs[p].scan.AtRoot?
    case HopNext(p) => p in s.procs && s.procs[p].scan.Hop?
    case Ack(p) => p in s.procs && s.procs[p].scan.Work?
    case Advance(p) => p in s.procs && s.procs[p].scan.Acked?
    case TakeRoot(p) => p in s.procs && s.procs[p].scan.WantRoot?
    case TakeHead(p) => p in s.procs && s.procs[p].scan.CleanEnter?
    case FreeHead(p) => p in s.procs && s.procs[p].scan.Clean?
    case Depart(p) =>
      && p in s.procs && !s.procs[p].posting && s.procs[p].flush == s.lastSeq
      && (s.procs[p].scan.Idle? || s.procs[p].scan.WantRoot?)
  }

  /** The lock that the step waits for, if any, is free. */
  predicate LockFree(s: State, l: Label)
    requires At(s, l)
  {
    match l
    case Join(_) => RootUnlocked(s)
    case JoinRefused => RootUnlocked(s)
    case PostBegin(_) => RootUnlocked(s)
    case PostCommit(_, _) => |s.log| > 0 && s.tail.Some? ==> StepUnlocked(s, s.tail.value)
    case PostAbandon(_) => true
    case Enter(_) => RootReadable(s)
    case LockHead(_) => |s.log| > 0 ==> StepUnlocked(s, s.log[0].seqNum)
    case HopNext(p) =>
      var at := s.procs[p].scan.at;
      if at < s.procs[p].flush then StepReadable(s, at + 1) else StepUnlocked(s, at + 1)
    case Ack(_) => true
    case Advance(p) => IsTail(s, s.procs[p].scan.at) || StepUnlocked(s, s.procs[p].scan.at + 1)
    case TakeRoot(_) => RootUnlocked(s)
    case TakeHead(_) => |s.log| > 0 ==> StepUnlocked(s, s.log[0].seqNum)
    case FreeHead(_) => |s.log| > 1 ==> StepUnlocked(s, s.log[1].seqNum)
    case Depart(_) => RootUnlocked(s)
  }

  predicate Guard(s: State, l: Label) {
    At(s, l) && LockFree(s, l)
  }

  /** What the source asserts, or dereferences without a test, on the way to the lock or after. */
  predicate Asserts(s: State, l: Label)
    requires At(s, l)
  {
    match l
    case PostCommit(p, op) => s.procs[p].flush == s.lastSeq && s.tail == LastOf(s.log)
    case Enter(p) => s.procs[p].flush < s.lastSeq && |s.log| > 0
    case LockHead(p) => |s.log| > 0 && s.log[0].seqNum <= s.procs[p].flush + 1
    case HopNext(p) =>
      var at := s.procs[p].scan.at;
      && InLog(s.log, at) && InLog(s.log, at + 1)
      && StepAt(s.log, at + 1).seqNum == StepAt(s.log, at).seqNum + 1
      && at <= s.procs[p].flush
    case Ack(p) =>
      var at := s.procs[p].scan.at;
      && InLog(s.log, at)
      && StepAt(s.log, at).seqNum == s.procs[p].flush + 1
      && StepAt(s.log, at).ackCount < StepAt(s.log, at).ackTarg
    case Advance(p) => InLog(s.log, s.procs[p].scan.at)
    case TakeRoot(p) => |s.log| > 0 && s.tail.Some?
    case TakeHead(p) => HeadDone(s.log)
    case FreeHead(p) =>
      && |s.log| > 0 && s.log[0].seqNum == s.procs[p].scan.at
      && (s.log[0].op.Reserve? ==> s.pending == Some(s.log[0].op.range))
      && (|s.log| > 1 ==> s.log[1].ackCount <= s.log[1].ackTarg)
    case Depart(p) => s.procs[p].flush <= s.lastSeq && s.procCount > 0
    case _ => true
  }

  predicate Enabled(s: State, l: Label) {
    Guard(s, l) && Asserts(s, l)
  }

  // ----- the steps

  function WithScan(s: State, p: Pid, scan: Scan): State
    requires p in s.procs
  {
    s.(procs := s.procs[p := s.procs[p].(scan := scan)])
  }

  function WithPosting(s: State, p: Pid, posting: bool): State
    requires p in s.procs
  {
    s.(procs := s.procs[p := s.procs[p].(posting := posting)])
  }

  function DoJoin(s: State, p: Pid): State {
    s.(procCount := s.procCount + 1, procs := s.procs[p := Proc(s.lastSeq, Idle, false)])
  }

  /** The count is bumped before the pending reservation is noticed, and never taken back. */
  function DoJoinRefused(s: State): State {
    s.(procCount := s.procCount + 1, obs := s.obs.(refused := s.obs.refused + 1))
  }

  function DoPostCommit(s: State, p: Pid, op: Op): State
    requires p in s.procs
  {
    var n := s.lastSeq + 1;
    s.(lastSeq := n,
       log := s.log + [Step(n, op, s.procCount, 1)],
       tail := Some(n),
       pending := if op.Reserve? then Some(op.range) else s.pending,
       procs := s.procs[p := s.procs[p].(flush := s.procs[p].flush + 1, posting := false)],
       obs := s.obs.(ledger := s.obs.ledger[n := Ledger(s.procs.Keys, {p}, s.obs.refused)],
                     reserveSeq := if op.Reserve? then n else s.obs.reserveSeq))
  }

  function DoLockHead(s: State, p: Pid): State
    requires p in s.procs && |s.log| > 0
  {
    var n := s.log[0].seqNum;
    WithScan(s, p, if n < s.procs[p].flush + 1 then Hop(n, n) else Work(n, n, false))
  }

  function DoHopNext(s: State, p: Pid): State
    requires p in s.procs && s.procs[p].scan.Hop?
  {
    var Hop(first, at) := s.procs[p].scan;
    WithScan(s, p, if at < s.procs[p].flush then Hop(first, at + 1) else Work(first, at + 1, false))
  }

  function DoAck(s: State, p: Pid): State
    requires p in s.procs && s.procs[p].scan.Work? && InLog(s.log, s.procs[p].scan.at)
  {
    var Work(first, at, flagged) := s.procs[p].scan;
    var step := StepAt(s.log, at).(ackCount := StepAt(s.log, at).ackCount + 1);
    var last := at == first && Done(step);
    var book := if at in s.obs.ledger then s.obs.ledger[at] else Ledger({}, {}, 0);
    s.(log := s.log[at - s.log[0].seqNum := step],
       procs := s.procs[p := s.procs[p].(flush := s.procs[p].flush + 1,
                                         scan := Acked(first, at, flagged || last))],
       obs := s.obs.(ledger := s.obs.ledger[at := book.(acked := book.acked + {p})],
                     cleaner := if last then Some(p) else s.obs.cleaner))
  }

  function DoAdvance(s: State, p: Pid): State
    requires p in s.procs && s.procs[p].scan.Acked?
  {
    var Acked(first, at, flagged) := s.procs[p].scan;
    WithScan(s, p, if !IsTail(s, at) then Work(first, at + 1, flagged)
                   else if flagged then WantRoot else Idle)
  }

  function DoFreeHead(s: State, p: Pid): State
    requires p in s.procs && |s.log| > 0
  {
    var more := HeadDone(s.log[1..]);
    WithScan(s, p, if more then Clean(s.log[1].seqNum) else Idle).(
      log := s.log[1..],
      tail := if |s.log| == 1 then None else s.tail,
      pending := if s.log[0].op.Reserve? then None else s.pending,
      obs := s.obs.(cleaner := if more then s.obs.cleaner else None))
  }

  function DoDepart(s: State, p: Pid): State
    requires p in s.procs && s.procCount > 0
  {
    var flagged := Flagged(s.procs[p]);
    s.(procCount := s.procCount - 1,
       procs := s.procs - {p},
       obs := s.obs.(cleaner := if flagged then None else s.obs.cleaner,
                     stranded := s.obs.stranded || flagged))
  }

  function Apply(s: State, l: Label): State
    requires Enabled(s, l)
  {
    match l
    case Join(p) => DoJoin(s, p)
    case JoinRefused => DoJoinRefused(s)
    case PostBegin(p) => WithPosting(s, p, true)
    case PostCommit(p, op) => DoPostCommit(s, p, op)
    case PostAbandon(p) => WithPosting(s, p, false)
    case Enter(p) => WithScan(s, p, AtRoot)
    case LockHead(p) => DoLockHead(s, p)
    case HopNext(p) => DoHopNext(s, p)
    case Ack(p) => DoAck(s, p)
    case Advance(p) => DoAdvance(s, p)
    case TakeRoot(p) => WithScan(s, p, CleanEnter)
    case TakeHead(p) => WithScan(s, p, Clean(s.log[0].seqNum))
    case FreeHead(p) => DoFreeHead(s, p)
    case Depart(p) => DoDepart(s, p)
  }

  /** The root struct as sc_init leaves it, with its creator registered. */
  function Initial(creator: Pid): State {
    State(1, [], None, None, 1, map[creator := Proc(1, Idle, false)],
          Observer(map[], 0, None, false, 0))
  }

  // ----- runs

  ghost predicate IsRun(states: seq<State>, labels: seq<Label>) {
    && |states| == |labels| + 1
    && forall i {:trigger labels[i]} :: 0 <= i < |labels| ==>
         Enabled(states[i], labels[i]) && states[i + 1] == Apply(states[i], labels[i])
  }

  ghost predicate IsFullRun(creator: Pid, states: seq<State>, labels: seq<Label>) {
    IsRun(states, labels) && states[0] == Initial(creator)
  }
}
