/**
  What the locks keep apart in every run, and that a thread which the others leave alone gets
  where it is going: a lagging process to the end of the log, a cleaner to the first step that is
  not fully acknowledged.
*/
module CleanupLogProgress {
  import opened Basics
  import opened CleanupLog
  import opened CleanupLogInvariant
  import opened CleanupLogTheorems

  // ----- mutual exclusion

  /** The thread has the lock of step `n`, shared or not. */
  predicate StandsOn(scan: Scan, n: nat) {
    match scan
    case Hop(_, at) => at == n
    case Work(_, at, _) => at == n
    case Acked(_, at, _) => at == n
    case Clean(at) => at == n
    case _ => false
  }

  predicate StandsAloneOn(scan: Scan, n: nat) {
    StandsOn(scan, n) && !scan.Hop?
  }

  /** One of the process's threads has the root lock. */
  predicate AtTheRoot(pr: Proc) {
    pr.posting || pr.scan.AtRoot? || pr.scan.CleanEnter? || pr.scan.Clean?
  }

  predicate AloneAtTheRoot(pr: Proc) {
    AtTheRoot(pr) && (pr.posting || !pr.scan.AtRoot?)
  }

  /** In no run do two processes stand on a step that one of them has locked for itself, nor are two
      at the root when one of them has locked that. */
  lemma LocksExclude(creator: Pid, states: seq<State>, labels: seq<Label>, k: nat, p: Pid, q: Pid, n: nat)
    requires IsFullRun(creator, states, labels) && k < |states|
    requires p in states[k].procs && q in states[k].procs && p != q
    ensures StandsAloneOn(states[k].procs[p].scan, n) ==> !StandsOn(states[k].procs[q].scan, n)
    ensures AloneAtTheRoot(states[k].procs[p]) ==> !AtTheRoot(states[k].procs[q])
  {
    ReachableInv(creator, states, labels, k);
    assert Compatible(states[k].procs[p], states[k].procs[q]);
  }

  /** Labels that wait for the lock of a step while the thread holds another or the root. */
  predicate LocksStep(l: Label) {
    l.LockHead? || l.HopNext? || l.Advance? || l.TakeHead? || l.FreeHead?
  }

  lemma UnlockedIsReadable(s: State, n: nat)
    ensures StepUnlocked(s, n) ==> StepReadable(s, n)
  {
    if StepUnlocked(s, n) {
      forall q | q in s.procs ensures !HoldsExclusive(s.procs[q], n) {
        assert !Holds(s.procs[q], n);
      }
    }
  }

  /** A thread that stands before a lock which is taken is what WaitsFor says: it waits for a step that
      some process stands on. */
  lemma BlockedThreadWaits(s: State, l: Label)
    requires Shape(s) && At(s, l) && Asserts(s, l) && LocksStep(l) && !LockFree(s, l)
    ensures WaitsFor(s, s.procs[l.p]).Some?
    ensures exists q :: q in s.procs && StandsOn(s.procs[q].scan, WaitsFor(s, s.procs[l.p]).value)
  {
    var n := WaitsFor(s, s.procs[l.p]).value;
    UnlockedIsReadable(s, n);
    var q :| q in s.procs && Holds(s.procs[q], n);
    assert StandsOn(s.procs[q].scan, n);
  }

  // ----- a thread on its own

  /** All other threads are between scans, and nobody posts. */
  ghost predicate OnItsOwn(s: State, p: Pid) {
    && p in s.procs
    && forall q :: q in s.procs ==>
         !s.procs[q].posting && (q != p ==> s.procs[q].scan.Idle? || s.procs[q].scan.WantRoot?)
  }

  /** The labels, all of the background thread of `p`, lead from `s` to `t`. */
  ghost predicate LeadsTo(s: State, p: Pid, labels: seq<Label>, t: State)
    decreases |labels|
  {
    if |labels| == 0 then s == t
    else ByThread(labels[0], p) && Enabled(s, labels[0]) && LeadsTo(Apply(s, labels[0]), p, labels[1..], t)
  }

  predicate ByThread(l: Label, p: Pid) {
    || l == Enter(p) || l == LockHead(p) || l == HopNext(p) || l == Ack(p) || l == Advance(p)
    || l == TakeRoot(p) || l == TakeHead(p) || l == FreeHead(p)
  }

  lemma LeadsByOne(s: State, p: Pid, l: Label, rest: seq<Label>, t: State)
    requires ByThread(l, p) && Enabled(s, l) && LeadsTo(Apply(s, l), p, rest, t)
    ensures LeadsTo(s, p, [l] + rest, t)
  {
    assert ([l] + rest)[1..] == rest;
  }

  /** What the thread does next. */
  function NextLabel(p: Pid, scan: Scan): Label {
    match scan
    case Idle => Enter(p)
    case AtRoot => LockHead(p)
    case Hop(_, _) => HopNext(p)
    case Work(_, _, _) => Ack(p)
    case Acked(_, _, _) => Advance(p)
    case WantRoot => TakeRoot(p)
    case CleanEnter => TakeHead(p)
    case Clean(_) => FreeHead(p)
  }

  /** Nothing stands in the way of a thread on its own. */
  lemma NothingInTheWay(s: State, p: Pid)
    requires Inv(s) && OnItsOwn(s, p) && (s.procs[p].scan.Idle? ==> s.procs[p].flush != s.lastSeq)
    ensures Enabled(s, NextLabel(p, s.procs[p].scan))
  {
    var l := NextLabel(p, s.procs[p].scan);
    AssertsHold(s, l);
    assert ProcOk(s.lastSeq, |s.log|, s.procs[p]);
    LocksAreFree(s, p);
  }

  lemma LocksAreFree(s: State, p: Pid)
    requires Shape(s) && OnItsOwn(s, p) && ProcOk(s.lastSeq, |s.log|, s.procs[p])
    requires s.procs[p].scan.Idle? ==> s.procs[p].flush != s.lastSeq
    ensures LockFree(s, NextLabel(p, s.procs[p].scan))
  {
  }

  lemma StaysOnItsOwn(s: State, p: Pid)
    requires OnItsOwn(s, p) && Enabled(s, NextLabel(p, s.procs[p].scan))
    ensures OnItsOwn(Apply(s, NextLabel(p, s.procs[p].scan)), p)
  {
    match s.procs[p].scan
    case Work(_, _, _) =>
    case Clean(_) =>
    case _ =>
  }

  // ----- a lagging process

  /** The thread is in its scan, or has one to make. */
  predicate Scanning(s: State, p: Pid)
    requires p in s.procs
  {
    match s.procs[p].scan
    case Idle => s.procs[p].flush != s.lastSeq
    case AtRoot => true
    case Hop(_, _) => true
    case Work(_, _, _) => true
    case Acked(_, _, _) => true
    case _ => false
  }

  function Rank(scan: Scan): nat {
    match scan
    case Idle => 5
    case AtRoot => 4
    case Hop(_, _) => 3
    case Acked(_, _, _) => 2
    case Work(_, _, _) => 1
    case _ => 0
  }

  /** How many steps the thread is away from where it needs to work. */
  function Hops(pr: Proc): nat {
    if pr.scan.Hop? && pr.scan.at <= pr.flush then pr.flush - pr.scan.at + 1 else 0
  }

  /** What one step of the scan brings. */
  ghost predicate Nearer(s: State, t: State, p: Pid) {
    && p in s.procs && p in t.procs && t.lastSeq == s.lastSeq
    && s.procs[p].flush <= t.procs[p].flush <= t.lastSeq
    && (s.procs[p].flush < t.procs[p].flush
        || Rank(t.procs[p].scan) < Rank(s.procs[p].scan)
        || (t.procs[p].scan.Hop? && s.procs[p].scan.Hop? && Hops(t.procs[p]) < Hops(s.procs[p]))
        || (s.procs[p].scan.Acked? && t.procs[p].scan.Idle?))
    && (!Scanning(t, p) ==> t.procs[p].flush == t.lastSeq && (t.procs[p].scan.Idle? || t.procs[p].scan.WantRoot?))
  }

  lemma ScanStep(s: State, p: Pid)
    requires Inv(s) && p in s.procs && Scanning(s, p) && Enabled(s, NextLabel(p, s.procs[p].scan))
    ensures Nearer(s, Apply(s, NextLabel(p, s.procs[p].scan)), p)
  {
    assert ProcOk(s.lastSeq, |s.log|, s.procs[p]);
    match s.procs[p].scan
    case Idle =>
    case AtRoot =>
    case Hop(_, _) =>
    case Work(_, _, _) =>
    case Acked(_, _, _) =>
  }

  lemma {:induction false} ScanFinishes(s: State, p: Pid) returns (labels: seq<Label>, t: State)
    requires Inv(s) && OnItsOwn(s, p) && Scanning(s, p) && s.procs[p].flush <= s.lastSeq
    ensures LeadsTo(s, p, labels, t) && Inv(t) && OnItsOwn(t, p) && t.lastSeq == s.lastSeq
    ensures t.procs[p].flush == t.lastSeq && (t.procs[p].scan.Idle? || t.procs[p].scan.WantRoot?)
    decreases s.lastSeq - s.procs[p].flush, Rank(s.procs[p].scan), Hops(s.procs[p])
  {
    var l := NextLabel(p, s.procs[p].scan);
    NothingInTheWay(s, p);
    var u := Apply(s, l);
    ScanStep(s, p);
    StepKeepsInv(s, l);
    StaysOnItsOwn(s, p);
    var rest: seq<Label> := [];
    t := u;
    if Scanning(u, p) {
      rest, t := ScanFinishes(u, p);
    }
    LeadsByOne(s, p, l, rest, t);
    labels := [l] + rest;
  }

  /** In every run, a lagging process that the others leave alone can acknowledge every step of the log
      that it has not, and then idles or is in charge of cleaning up. */
  lemma LaggardCanCatchUp(creator: Pid, states: seq<State>, labels: seq<Label>, k: nat, p: Pid)
      returns (way: seq<Label>, t: State)
    requires IsFullRun(creator, states, labels) && k < |states| && OnItsOwn(states[k], p)
    requires states[k].procs[p].scan.Idle? && states[k].procs[p].flush != states[k].lastSeq
    ensures LeadsTo(states[k], p, way, t) && p in t.procs && t.lastSeq == states[k].lastSeq
    ensures t.procs[p].flush == t.lastSeq && (t.procs[p].scan.Idle? || t.procs[p].scan.WantRoot?)
  {
    ReachableInv(creator, states, labels, k);
    assert ProcOk(states[k].lastSeq, |states[k].log|, states[k].procs[p]);
    way, t := ScanFinishes(states[k], p);
  }

  // ----- a cleaner

  /** `t`'s log is `s`'s without its first steps, which were all fully acknowledged. */
  ghost predicate FreedSome(s: State, t: State, count: nat) {
    && count <= |s.log| && t.log == s.log[count..]
    && forall i :: 0 <= i < count ==> Done(s.log[i])
  }

  lemma FreeStep(s: State, p: Pid)
    requires Inv(s) && Enabled(s, FreeHead(p))
    ensures var t := Apply(s, FreeHead(p));
      && FreedSome(s, t, 1) && p in t.procs
      && (t.procs[p].scan.Clean? || (t.procs[p].scan.Idle? && !HeadDone(t.log)))
  {
    assert Flagged(s.procs[p]);
  }

  lemma FreedMore(s: State, u: State, t: State, count: nat)
    requires FreedSome(s, u, 1) && FreedSome(u, t, count)
    ensures FreedSome(s, t, count + 1)
  {
    forall i | 0 <= i < count + 1 ensures Done(s.log[i]) {
      assert i > 0 ==> s.log[i] == u.log[i - 1];
    }
  }

  lemma {:induction false} CleanFinishes(s: State, p: Pid) returns (labels: seq<Label>, t: State, count: nat)
    requires Inv(s) && OnItsOwn(s, p) && s.procs[p].scan.Clean?
    ensures LeadsTo(s, p, labels, t) && p in t.procs && t.procs[p].scan.Idle? && !HeadDone(t.log)
    ensures FreedSome(s, t, count) && count > 0
    decreases |s.log|
  {
    NothingInTheWay(s, p);
    var u := Apply(s, FreeHead(p));
    FreeStep(s, p);
    StepKeepsInv(s, FreeHead(p));
    StaysOnItsOwn(s, p);
    var rest: seq<Label> := [];
    t, count := u, 0;
    if u.procs[p].scan.Clean? {
      rest, t, count := CleanFinishes(u, p);
    }
    FreedMore(s, u, t, count);
    count := count + 1;
    LeadsByOne(s, p, FreeHead(p), rest, t);
    labels := [FreeHead(p)] + rest;
  }

  lemma TakesCharge(s: State, p: Pid) returns (u: State)
    requires Inv(s) && OnItsOwn(s, p) && s.procs[p].scan.WantRoot?
    ensures Enabled(s, TakeRoot(p)) && Enabled(Apply(s, TakeRoot(p)), TakeHead(p))
    ensures u == Apply(Apply(s, TakeRoot(p)), TakeHead(p))
    ensures Inv(u) && OnItsOwn(u, p) && u.procs[p].scan.Clean? && u.log == s.log
  {
    NothingInTheWay(s, p);
    var v := Apply(s, TakeRoot(p));
    StepKeepsInv(s, TakeRoot(p));
    StaysOnItsOwn(s, p);
    NothingInTheWay(v, p);
    u := Apply(v, TakeHead(p));
    StepKeepsInv(v, TakeHead(p));
    StaysOnItsOwn(v, p);
  }

  /** In every run, a cleaner that the others leave alone can free all fully acknowledged steps at the
      front of the log: it stops at the first that is not. */
  lemma CleanerCanFinish(creator: Pid, states: seq<State>, labels: seq<Label>, k: nat, p: Pid)
      returns (way: seq<Label>, t: State, count: nat)
    requires IsFullRun(creator, states, labels) && k < |states| && OnItsOwn(states[k], p)
    requires states[k].procs[p].scan.WantRoot?
    ensures LeadsTo(states[k], p, way, t) && p in t.procs && t.procs[p].scan.Idle?
    ensures FreedSome(states[k], t, count) && count > 0 && !HeadDone(t.log)
  {
    var s := states[k];
    ReachableInv(creator, states, labels, k);
    var u := TakesCharge(s, p);
    var rest;
    rest, t, count := CleanFinishes(u, p);
    LeadsByOne(Apply(s, TakeRoot(p)), p, TakeHead(p), rest, t);
    LeadsByOne(s, p, TakeRoot(p), [TakeHead(p)] + rest, t);
    way := [TakeRoot(p)] + ([TakeHead(p)] + rest);
  }
}
