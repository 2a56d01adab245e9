/** What the cleanup-log protocol guarantees over every run, and where it fails. */
module CleanupLogTheorems {
  import opened Basics
  import opened CleanupLog
  import opened CleanupLogInvariant

  /** Observer fields decide nothing: two states that differ only there allow the same labels
      and stay equal up to the observer. */
  lemma ObserverIsSilent(s: State, l: Label, o: Observer)
    requires Enabled(s, l)
    ensures Enabled(s.(obs := o), l)
    ensures Apply(s.(obs := o), l).(obs := o) == Apply(s, l).(obs := o)
  {
    match l
    case Ack(_) =>
    case _ =>
  }

  lemma InitialInv(creator: Pid)
    ensures Inv(Initial(creator))
  {
    assert Initial(creator).procs.Keys == {creator};
  }

  lemma ReachableInv(creator: Pid, states: seq<State>, labels: seq<Label>, k: nat)
    requires IsFullRun(creator, states, labels) && k < |states|
    ensures Inv(states[k])
  {
    InitialInv(creator);
    RunKeepsInv(states, labels, k);
  }

  // ----- the walk

  /** In no run does an assert of the source fail or the walk follow a null pointer. */
  lemma NoAssertFails(creator: Pid, states: seq<State>, labels: seq<Label>, k: nat, l: Label)
    requires IsFullRun(creator, states, labels) && k < |states| && At(states[k], l)
    ensures Asserts(states[k], l)
  {
    ReachableInv(creator, states, labels, k);
    AssertsHold(states[k], l);
  }

  /** The log is contiguous up to lastSeq, and the next step of a lagging process is in it. */
  lemma LaggardFindsItsStep(creator: Pid, states: seq<State>, labels: seq<Label>, k: nat, p: Pid)
    requires IsFullRun(creator, states, labels) && k < |states|
    requires p in states[k].procs && states[k].procs[p].flush != states[k].lastSeq
    ensures var s := states[k];
      && InLog(s.log, s.procs[p].flush + 1)
      && StepAt(s.log, s.procs[p].flush + 1).seqNum == s.procs[p].flush + 1
      && forall i :: 0 <= i < |s.log| ==> s.log[i].seqNum == s.lastSeq + 1 - |s.log| + i
  {
    ReachableInv(creator, states, labels, k);
    assert ProcOk(states[k].lastSeq, |states[k].log|, states[k].procs[p]);
  }

  // ----- accounting

  ghost function Behind(s: State, n: nat): set<Pid> {
    set p | p in s.procs && s.procs[p].flush < n
  }

  lemma InvAccounting(s: State, i: nat)
    requires Inv(s) && i < |s.log|
    ensures s.log[i].ackTarg - s.log[i].ackCount ==
            |Behind(s, s.log[i].seqNum)| + s.obs.ledger[s.log[i].seqNum].ghosts
  {
    var book := s.obs.ledger[s.log[i].seqNum];
    assert BookOk(s.procs, s.log[i], book);
    SubsetSize(book.acked, book.counted);
    assert Behind(s, s.log[i].seqNum) == book.counted - book.acked;
  }

  function Refusals(labels: seq<Label>): nat {
    if |labels| == 0 then 0
    else Refusals(labels[..|labels| - 1]) + (if labels[|labels| - 1].JoinRefused? then 1 else 0)
  }

  lemma {:induction false} RefusedIsCounted(creator: Pid, states: seq<State>, labels: seq<Label>, k: nat)
    requires IsFullRun(creator, states, labels) && k < |states|
    ensures states[k].obs.refused == Refusals(labels[..k])
  {
    if k > 0 {
      RefusedIsCounted(creator, states, labels, k - 1);
      assert labels[..k][..k - 1] == labels[..k - 1];
      assert states[k] == Apply(states[k - 1], labels[k - 1]);
    }
  }

  /** The label acknowledges step `n` on behalf of `p`. */
  predicate Processes(s: State, l: Label, p: Pid, n: nat) {
    l == Ack(p) && p in s.procs && s.procs[p].scan.Work? && s.procs[p].scan.at == n
  }

  /** What may happen to the ledger of step `n` when `l` takes `s` to `t`. */
  ghost predicate LedgerMoves(s: State, l: Label, t: State, n: nat) {
    && s.lastSeq <= t.lastSeq
    && (n <= s.lastSeq && n in s.obs.ledger ==>
          && n in t.obs.ledger
          && t.obs.ledger[n].counted == s.obs.ledger[n].counted
          && t.obs.ledger[n].ghosts == s.obs.ledger[n].ghosts
          && forall p :: p in t.obs.ledger[n].acked && p !in s.obs.ledger[n].acked ==> Processes(s, l, p, n))
  }

  lemma AckLedger(s: State, p: Pid, n: nat)
    requires Shape(s) && ProcsOk(s) && Entries(s) && Enabled(s, Ack(p))
    ensures LedgerMoves(s, Ack(p), Apply(s, Ack(p)), n)
  {
    AckedIsBooked(s, p);
  }

  lemma LedgerStep(s: State, l: Label, n: nat)
    requires Shape(s) && ProcsOk(s) && Entries(s) && Enabled(s, l)
    ensures LedgerMoves(s, l, Apply(s, l), n)
  {
    match l
    case Ack(p) => AckLedger(s, p, n);
    case _ =>
  }

  lemma RunLedgerStep(creator: Pid, states: seq<State>, labels: seq<Label>, i: nat, n: nat)
    requires IsFullRun(creator, states, labels) && i < |labels|
    requires n <= states[i].lastSeq && n in states[i].obs.ledger
    ensures n <= states[i + 1].lastSeq && n in states[i + 1].obs.ledger
    ensures states[i + 1].obs.ledger[n].counted == states[i].obs.ledger[n].counted
    ensures states[i + 1].obs.ledger[n].ghosts == states[i].obs.ledger[n].ghosts
    ensures forall p :: p in states[i + 1].obs.ledger[n].acked && p !in states[i].obs.ledger[n].acked ==>
      Processes(states[i], labels[i], p, n)
  {
    ReachableInv(creator, states, labels, i);
    LedgerStep(states[i], labels[i], n);
  }

  /** What a post writes into the ledger. */
  lemma PostLedger(creator: Pid, states: seq<State>, labels: seq<Label>, j: nat)
    requires IsFullRun(creator, states, labels) && j < |labels| && labels[j].PostCommit?
    ensures var n := states[j].lastSeq + 1;
      && n == states[j + 1].lastSeq && n in states[j + 1].obs.ledger
      && states[j + 1].obs.ledger[n] == Ledger(states[j].procs.Keys, {labels[j].p}, states[j].obs.refused)
  {
    assert states[j + 1] == DoPostCommit(states[j], labels[j].p, labels[j].op);
  }

  /** The ledger counts the processes registered when the step was posted. */
  lemma {:induction false} LedgerIsKept(creator: Pid, states: seq<State>, labels: seq<Label>, j: nat, k: nat)
    requires IsFullRun(creator, states, labels) && j < k < |states| && labels[j].PostCommit?
    ensures var n := states[j].lastSeq + 1;
      && n <= states[k].lastSeq && n in states[k].obs.ledger
      && states[k].obs.ledger[n].counted == states[j].procs.Keys
      && states[k].obs.ledger[n].ghosts == states[j].obs.refused
  {
    if j + 1 == k {
      PostLedger(creator, states, labels, j);
    } else {
      LedgerIsKept(creator, states, labels, j, k - 1);
      RunLedgerStep(creator, states, labels, k - 1, states[j].lastSeq + 1);
    }
  }

  /** Everyone but the poster is struck off the ledger by processing the step. */
  lemma {:induction false} LedgerIsHistory(
      creator: Pid, states: seq<State>, labels: seq<Label>, j: nat, k: nat, q: Pid)
    requires IsFullRun(creator, states, labels) && j < k < |states| && labels[j].PostCommit?
    requires states[j].lastSeq + 1 in states[k].obs.ledger
    requires q in states[k].obs.ledger[states[j].lastSeq + 1].acked && q != labels[j].p
    ensures exists i :: j < i < k && Processes(states[i], labels[i], q, states[j].lastSeq + 1)
  {
    var n := states[j].lastSeq + 1;
    PostLedger(creator, states, labels, j);
    if j + 1 < k {
      LedgerIsKept(creator, states, labels, j, k - 1);
      RunLedgerStep(creator, states, labels, k - 1, n);
      if q in states[k - 1].obs.ledger[n].acked {
        LedgerIsHistory(creator, states, labels, j, k - 1, q);
      } else {
        assert Processes(states[k - 1], labels[k - 1], q, n);
      }
    }
  }

  /** What a step still waits for is exactly the registered processes that have not processed
      it, plus one unit for each join refused before it was posted. */
  lemma AckAccounting(creator: Pid, states: seq<State>, labels: seq<Label>, j: nat, k: nat)
    requires IsFullRun(creator, states, labels) && j < k < |states|
    requires labels[j].PostCommit? && InLog(states[k].log, states[j].lastSeq + 1)
    ensures var n := states[j].lastSeq + 1; var step := StepAt(states[k].log, n);
      step.seqNum == n && step.ackTarg == step.ackCount + |Behind(states[k], n)| + Refusals(labels[..j])
  {
    LedgerIsKept(creator, states, labels, j, k);
    RefusedIsCounted(creator, states, labels, j);
    ReachableAccounting(creator, states, labels, k, states[j].lastSeq + 1);
  }

  lemma ReachableAccounting(creator: Pid, states: seq<State>, labels: seq<Label>, k: nat, n: nat)
    requires IsFullRun(creator, states, labels) && k < |states| && InLog(states[k].log, n)
    ensures n in states[k].obs.ledger
    ensures var step := StepAt(states[k].log, n);
      && step.seqNum == n
      && step.ackTarg == step.ackCount + |Behind(states[k], n)| + states[k].obs.ledger[n].ghosts
  {
    ReachableInv(creator, states, labels, k);
    InvAccounting(states[k], n - states[k].log[0].seqNum);
  }

  /** A step is freed only after every process that was registered when it was posted, other
      than the poster, has processed it. */
  lemma FreedAfterEveryoneProcessed(
      creator: Pid, states: seq<State>, labels: seq<Label>, j: nat, k: nat, q: Pid)
    requires IsFullRun(creator, states, labels) && j < k < |labels|
    requires labels[j].PostCommit? && labels[k].FreeHead?
    requires states[k].log[0].seqNum == states[j].lastSeq + 1
    requires q in states[j].procs && q != labels[j].p
    ensures exists i :: j < i < k && Processes(states[i], labels[i], q, states[j].lastSeq + 1)
  {
    var s, n := states[k], states[j].lastSeq + 1;
    ReachableInv(creator, states, labels, k);
    LedgerIsKept(creator, states, labels, j, k);
    assert Enabled(s, labels[k]) && Flagged(s.procs[labels[k].p]);
    assert BookOk(s.procs, s.log[0], s.obs.ledger[n]);
    DoneLeavesNobodyBehind(s.procs, s.log[0], s.obs.ledger[n]);
    LedgerIsHistory(creator, states, labels, j, k, q);
  }

  // ----- a process processes a step once

  lemma PastStep(s: State, l: Label, q: Pid, n: nat)
    requires Enabled(s, l) && n <= s.lastSeq
    requires q in s.procs ==> s.procs[q].flush >= n
    ensures n <= Apply(s, l).lastSeq
    ensures q in Apply(s, l).procs ==> Apply(s, l).procs[q].flush >= n
  {
    match l
    case Join(_) =>
    case Depart(_) =>
    case _ =>
  }

  lemma RunPastStep(creator: Pid, states: seq<State>, labels: seq<Label>, i: nat, q: Pid, n: nat)
    requires IsFullRun(creator, states, labels) && i < |labels| && n <= states[i].lastSeq
    requires q in states[i].procs ==> states[i].procs[q].flush >= n
    ensures n <= states[i + 1].lastSeq && (q in states[i + 1].procs ==> states[i + 1].procs[q].flush >= n)
  {
    PastStep(states[i], labels[i], q, n);
  }

  lemma AckIsPast(creator: Pid, states: seq<State>, labels: seq<Label>, i: nat, q: Pid)
    requires IsFullRun(creator, states, labels) && i < |labels| && labels[i] == Ack(q)
    ensures q in states[i].procs && states[i].procs[q].scan.Work? && q in states[i + 1].procs
    ensures states[i].procs[q].scan.at <= states[i + 1].lastSeq
    ensures states[i + 1].procs[q].flush == states[i].procs[q].scan.at
  {
    ReachableInv(creator, states, labels, i);
    assert ProcOk(states[i].lastSeq, |states[i].log|, states[i].procs[q]);
  }

  lemma {:induction false} PastStepStays(creator: Pid, states: seq<State>, labels: seq<Label>, i: nat, k: nat, q: Pid)
    requires IsFullRun(creator, states, labels) && i < k < |states|
    requires labels[i] == Ack(q)
    ensures q in states[i].procs && states[i].procs[q].scan.Work?
    ensures var n := states[i].procs[q].scan.at;
      n <= states[k].lastSeq && (q in states[k].procs ==> states[k].procs[q].flush >= n)
  {
    AckIsPast(creator, states, labels, i, q);
    if i + 1 < k {
      PastStepStays(creator, states, labels, i, k - 1, q);
      RunPastStep(creator, states, labels, k - 1, q, states[i].procs[q].scan.at);
    }
  }

  /** No process ever carries out the same step twice, even if it departs and joins again. */
  lemma ProcessedOnce(creator: Pid, states: seq<State>, labels: seq<Label>, i: nat, k: nat, q: Pid, n: nat)
    requires IsFullRun(creator, states, labels) && i < |labels| && k < |labels|
    requires Processes(states[i], labels[i], q, n) && Processes(states[k], labels[k], q, n)
    ensures i == k
  {
    var lo, hi := if i < k then i else k, if i < k then k else i;
    if lo < hi {
      PastStepStays(creator, states, labels, lo, hi, q);
      ReachableInv(creator, states, labels, hi);
      assert false;
    }
  }

  /** If a step is fully acknowledged then so is every earlier one. */
  lemma DoneIsDownwardClosed(creator: Pid, states: seq<State>, labels: seq<Label>, k: nat, i: nat, j: nat)
    requires IsFullRun(creator, states, labels) && k < |states|
    requires i < j < |states[k].log| && Done(states[k].log[j])
    ensures Done(states[k].log[i])
  {
    var s := states[k];
    ReachableInv(creator, states, labels, k);
    InvAccounting(s, i);
    InvAccounting(s, j);
    assert Behind(s, s.log[i].seqNum) <= Behind(s, s.log[j].seqNum);
    SubsetSize(Behind(s, s.log[i].seqNum), Behind(s, s.log[j].seqNum));
  }

  // ----- cleaning up

  /** At most one thread is in charge, and what it is in charge of is the head it started
      from, fully acknowledged. */
  lemma OneCleaner(creator: Pid, states: seq<State>, labels: seq<Label>, k: nat, p: Pid, q: Pid)
    requires IsFullRun(creator, states, labels) && k < |states|
    requires p in states[k].procs && Flagged(states[k].procs[p])
    requires q in states[k].procs && Flagged(states[k].procs[q])
    ensures p == q
    ensures HeadDone(states[k].log)
    ensures var scan := states[k].procs[p].scan;
      && (scan.Work? || scan.Acked? ==> scan.first == states[k].log[0].seqNum)
      && (scan.Clean? ==> scan.at == states[k].log[0].seqNum)
  {
    ReachableInv(creator, states, labels, k);
    assert ProcOk(states[k].lastSeq, |states[k].log|, states[k].procs[p]);
  }

  /** Freeing the head disturbs nobody: no other thread holds its lock or is blocked on it,
      and no registered process still needs it. */
  lemma FreedInPrivate(creator: Pid, states: seq<State>, labels: seq<Label>, k: nat, p: Pid, q: Pid)
    requires IsFullRun(creator, states, labels) && k < |labels| && labels[k] == FreeHead(p)
    requires q in states[k].procs
    ensures |states[k].log| > 0 && Done(states[k].log[0])
    ensures var s := states[k]; var n := s.log[0].seqNum;
      && s.procs[q].flush >= n
      && !s.procs[q].posting
      && (q != p ==> !Holds(s.procs[q], n) && WaitsFor(s, s.procs[q]) != Some(n))
  {
    var s := states[k];
    ReachableInv(creator, states, labels, k);
    assert Enabled(s, FreeHead(p)) && Flagged(s.procs[p]);
    assert BookOk(s.procs, s.log[0], s.obs.ledger[s.log[0].seqNum]);
    DoneLeavesNobodyBehind(s.procs, s.log[0], s.obs.ledger[s.log[0].seqNum]);
    assert ProcOk(s.lastSeq, |s.log|, s.procs[q]) && OwnLocksOk(s.procCount, s.procs[q]);
    if q != p {
      assert Compatible(s.procs[p], s.procs[q]);
    }
  }

  /** Somebody waiting to clean up has departed. */
  ghost predicate CleanerLost(states: seq<State>, labels: seq<Label>, k: nat)
    requires |states| == |labels| + 1 && k < |states|
  {
    exists i :: 0 <= i < k && LosesCleaner(states[i], labels[i])
  }

  predicate LosesCleaner(s: State, l: Label) {
    l.Depart? && l.p in s.procs && s.procs[l.p].scan.WantRoot?
  }

  lemma {:induction false} StrandedMeansLost(creator: Pid, states: seq<State>, labels: seq<Label>, k: nat)
    requires IsFullRun(creator, states, labels) && k < |states|
    ensures states[k].obs.stranded <==> CleanerLost(states, labels, k)
  {
    if k > 0 {
      StrandedMeansLost(creator, states, labels, k - 1);
      StrandedByOneStep(states[k - 1], labels[k - 1]);
      assert states[k] == Apply(states[k - 1], labels[k - 1]);
      if LosesCleaner(states[k - 1], labels[k - 1]) {
        assert CleanerLost(states, labels, k);
      } else if CleanerLost(states, labels, k - 1) {
        assert CleanerLost(states, labels, k);
      }
    }
  }

  lemma StrandedByOneStep(s: State, l: Label)
    requires Enabled(s, l)
    ensures Apply(s, l).obs.stranded <==> s.obs.stranded || LosesCleaner(s, l)
  {
    match l
    case Depart(_) =>
    case _ =>
  }

  /** A fully acknowledged head that nobody is in charge of. */
  ghost predicate Stranded(s: State) {
    HeadDone(s.log) && forall p :: p in s.procs ==> !Flagged(s.procs[p])
  }

  /** A fully acknowledged head has a thread in charge, even if its last acknowledger started
      from an older head, unless a process departed while its thread waited to clean up; and
      then it never has one again. */
  lemma StrandedExactlyWhenCleanerLost(creator: Pid, states: seq<State>, labels: seq<Label>, k: nat)
    requires IsFullRun(creator, states, labels) && k < |states|
    ensures Stranded(states[k]) <==> CleanerLost(states, labels, k)
  {
    ReachableInv(creator, states, labels, k);
    StrandedMeansLost(creator, states, labels, k);
    var s := states[k];
    if s.obs.cleaner.Some? {
      assert Flagged(s.procs[s.obs.cleaner.value]);
    }
  }

  lemma StrandedStep(s: State, l: Label)
    requires Shape(s) && ProcsOk(s) && Stranded(s) && Enabled(s, l)
    ensures Stranded(Apply(s, l)) && Apply(s, l).log[0] == s.log[0]
  {
    match l
    case Ack(p) =>
      assert ProcOk(s.lastSeq, |s.log|, s.procs[p]);
    case _ =>
  }

  lemma RunStrandedStep(states: seq<State>, labels: seq<Label>, i: nat)
    requires IsRun(states, labels) && Inv(states[0]) && i < |labels| && Stranded(states[i])
    ensures Stranded(states[i + 1]) && states[i + 1].log[0] == states[i].log[0]
  {
    RunKeepsInv(states, labels, i);
    StrandedStep(states[i], labels[i]);
  }

  /** Once stranded, the head stays in every continuation: nothing is ever freed again. */
  lemma {:induction false} StrandedForever(states: seq<State>, labels: seq<Label>, j: nat, k: nat)
    requires IsRun(states, labels) && Inv(states[0]) && j <= k < |states| && Stranded(states[j])
    ensures Stranded(states[k]) && states[k].log[0] == states[j].log[0]
  {
    if j < k {
      StrandedForever(states, labels, j, k - 1);
      RunStrandedStep(states, labels, k - 1);
    }
  }

  /** The run that strands the log: 1 acknowledges last, takes charge, and departs before its
      background thread gets the root lock. */
  function StrandingLabels(r: Range): seq<Label> {
    [Join(1), PostBegin(0), PostCommit(0, Reserve(r)), Enter(1), LockHead(1), Ack(1), Advance(1), Depart(1)]
  }

  /** The states of that run. */
  function StrandingState(r: Range, i: nat): State
    requires i <= 8
  {
    var o := Observer(map[], 0, None, false, 0);
    var o' := o.(ledger := map[2 := Ledger({0, 1}, {0}, 0)], reserveSeq := 2);
    var o'' := o'.(ledger := map[2 := Ledger({0, 1}, {0, 1}, 0)], cleaner := Some(1));
    var log, log' := [Step(2, Reserve(r), 2, 1)], [Step(2, Reserve(r), 2, 2)];
    var p, p' := Proc(1, Idle, false), Proc(2, Idle, false);
    if i == 0 then Initial(0)
    else if i == 1 then State(1, [], None, None, 2, map[0 := p, 1 := p], o)
    else if i == 2 then State(1, [], None, None, 2, map[0 := p.(posting := true), 1 := p], o)
    else if i == 3 then State(2, log, Some(2), Some(r), 2, map[0 := p', 1 := p], o')
    else if i == 4 then State(2, log, Some(2), Some(r), 2, map[0 := p', 1 := p.(scan := AtRoot)], o')
    else if i == 5 then State(2, log, Some(2), Some(r), 2, map[0 := p', 1 := p.(scan := Work(2, 2, false))], o')
    else if i == 6 then State(2, log', Some(2), Some(r), 2, map[0 := p', 1 := p'.(scan := Acked(2, 2, true))], o'')
    else if i == 7 then State(2, log', Some(2), Some(r), 2, map[0 := p', 1 := p'.(scan := WantRoot)], o'')
    else State(2, log', Some(2), Some(r), 1, map[0 := p'], o''.(cleaner := None, stranded := true))
  }

  ghost predicate StrandingStep(r: Range, i: nat)
    requires i < 8
  {
    && Enabled(StrandingState(r, i), StrandingLabels(r)[i])
    && StrandingState(r, i + 1) == Apply(StrandingState(r, i), StrandingLabels(r)[i])
  }

  lemma StrandingPosts(r: Range)
    requires r.len > 0
    ensures StrandingStep(r, 0) && StrandingStep(r, 1) && StrandingStep(r, 2)
  {
    assert StrandingState(r, 2).procs.Keys == {0, 1};
  }

  lemma StrandingWalk(r: Range)
    ensures StrandingStep(r, 3) && StrandingStep(r, 4)
  {
  }

  lemma StrandingAck(r: Range)
    ensures StrandingStep(r, 5) && StrandingStep(r, 6)
  {
    assert {0} + {1} == {0, 1};
    assert Enabled(StrandingState(r, 5), Ack(1));
    assert [Step(2, Reserve(r), 2, 1)][0 := Step(2, Reserve(r), 2, 2)] == [Step(2, Reserve(r), 2, 2)];
  }

  lemma StrandingDeparture(r: Range)
    ensures StrandingStep(r, 7) && Stranded(StrandingState(r, 8))
  {
    assert StrandingState(r, 7).procs - {1} == StrandingState(r, 8).procs;
  }

  lemma DepartureStrandsTheLog(r: Range)
    requires r.len > 0
    ensures var states := seq(9, i requires 0 <= i < 9 => StrandingState(r, i));
      && IsFullRun(0, states, StrandingLabels(r))
      && Stranded(states[8]) && states[8].pending == Some(r)
  {
    var states, ls := seq(9, i requires 0 <= i < 9 => StrandingState(r, i)), StrandingLabels(r);
    forall i {:trigger ls[i]} | 0 <= i < |ls|
      ensures Enabled(states[i], ls[i]) && states[i + 1] == Apply(states[i], ls[i])
    {
      StrandingPosts(r);
      StrandingWalk(r);
      StrandingAck(r);
      StrandingDeparture(r);
      assert StrandingStep(r, i);
    }
    StrandingDeparture(r);
  }

  // ----- refused joins

  lemma {:induction false} RefusedOnlyGrows(creator: Pid, states: seq<State>, labels: seq<Label>, i: nat, j: nat)
    requires IsFullRun(creator, states, labels) && i < j < |states| && labels[i].JoinRefused?
    ensures states[j].obs.refused > 0
  {
    assert states[j] == Apply(states[j - 1], labels[j - 1]);
    if i + 1 < j {
      RefusedOnlyGrows(creator, states, labels, i, j - 1);
    }
  }

  lemma GhostStaysStep(s: State, l: Label, n: nat)
    requires Shape(s) && Books(s) && CleanerOk(s) && Enabled(s, l) && InLog(s.log, n)
    requires n in s.obs.ledger && s.obs.ledger[n].ghosts > 0
    ensures InLog(Apply(s, l).log, n)
  {
    match l
    case FreeHead(p) =>
      assert Flagged(s.procs[p]);
      DoneLeavesNobodyBehind(s.procs, s.log[0], s.obs.ledger[s.log[0].seqNum]);
    case _ =>
  }

  lemma PostedIsInLog(s: State, l: Label)
    requires Shape(s) && Enabled(s, l) && l.PostCommit?
    ensures InLog(Apply(s, l).log, s.lastSeq + 1)
  {
    assert Apply(s, l).log[0] == (if |s.log| > 0 then s.log[0] else Apply(s, l).log[0]);
  }

  /** After one refused join no later post ever completes: its step is never freed. */
  lemma {:induction false} RefusedJoinPoisonsTheLog(
      creator: Pid, states: seq<State>, labels: seq<Label>, i: nat, j: nat, k: nat)
    requires IsFullRun(creator, states, labels) && i < j < k < |states|
    requires labels[i].JoinRefused? && labels[j].PostCommit?
    ensures InLog(states[k].log, states[j].lastSeq + 1)
  {
    var n := states[j].lastSeq + 1;
    if j + 1 == k {
      PostedIsReachable(creator, states, labels, j);
    } else {
      RefusedJoinPoisonsTheLog(creator, states, labels, i, j, k - 1);
      RefusedOnlyGrows(creator, states, labels, i, j);
      LedgerIsKept(creator, states, labels, j, k - 1);
      GhostStays(creator, states, labels, k - 1, n);
    }
  }

  lemma PostedIsReachable(creator: Pid, states: seq<State>, labels: seq<Label>, j: nat)
    requires IsFullRun(creator, states, labels) && j < |labels| && labels[j].PostCommit?
    ensures InLog(states[j + 1].log, states[j].lastSeq + 1)
  {
    ReachableInv(creator, states, labels, j);
    PostedIsInLog(states[j], labels[j]);
  }

  lemma GhostStays(creator: Pid, states: seq<State>, labels: seq<Label>, k: nat, n: nat)
    requires IsFullRun(creator, states, labels) && k < |labels| && InLog(states[k].log, n)
    requires n in states[k].obs.ledger && states[k].obs.ledger[n].ghosts > 0
    ensures InLog(states[k + 1].log, n)
  {
    ReachableInv(creator, states, labels, k);
    GhostStaysStep(states[k], labels[k], n);
  }

  /** A run with a refused join and a later post: while 0's first reservation is pending a third
      process is turned away; 1 acknowledges and cleans up; and 0 posts again. */
  function RefusingLabels(r: Range): seq<Label> {
    [Join(1), PostBegin(0), PostCommit(0, Reserve(r)), JoinRefused, Enter(1), LockHead(1), Ack(1),
     Advance(1), TakeRoot(1), TakeHead(1), FreeHead(1), PostBegin(0), PostCommit(0, Reserve(r))]
  }

  function RefusingState(r: Range, i: nat): State
    requires i <= 13
  {
    var o := Observer(map[], 1, None, false, 0);
    var o' := o.(ledger := map[2 := Ledger({0, 1}, {0}, 0)], reserveSeq := 2);
    var o'' := o'.(ledger := map[2 := Ledger({0, 1}, {0, 1}, 0)], cleaner := Some(1));
    var log, log' := [Step(2, Reserve(r), 2, 1)], [Step(2, Reserve(r), 2, 2)];
    var p, p' := Proc(1, Idle, false), Proc(2, Idle, false);
    if i <= 3 then StrandingState(r, i)
    else if i == 4 then State(2, log, Some(2), Some(r), 3, map[0 := p', 1 := p], o')
    else if i == 5 then State(2, log, Some(2), Some(r), 3, map[0 := p', 1 := p.(scan := AtRoot)], o')
    else if i == 6 then State(2, log, Some(2), Some(r), 3, map[0 := p', 1 := p.(scan := Work(2, 2, false))], o')
    else if i == 7 then State(2, log', Some(2), Some(r), 3, map[0 := p', 1 := p'.(scan := Acked(2, 2, true))], o'')
    else if i == 8 then State(2, log', Some(2), Some(r), 3, map[0 := p', 1 := p'.(scan := WantRoot)], o'')
    else if i == 9 then State(2, log', Some(2), Some(r), 3, map[0 := p', 1 := p'.(scan := CleanEnter)], o'')
    else if i == 10 then State(2, log', Some(2), Some(r), 3, map[0 := p', 1 := p'.(scan := Clean(2))], o'')
    else if i == 11 then State(2, [], None, None, 3, map[0 := p', 1 := p'], o''.(cleaner := None))
    else if i == 12 then State(2, [], None, None, 3, map[0 := p'.(posting := true), 1 := p'], o''.(cleaner := None))
    else State(3, [Step(3, Reserve(r), 3, 1)], Some(3), Some(r), 3, map[0 := p'.(flush := 3), 1 := p'],
               o''.(ledger := o''.ledger[3 := Ledger({0, 1}, {0}, 1)], cleaner := None, reserveSeq := 3))
  }

  ghost predicate RefusingStep(r: Range, i: nat)
    requires i < 13
  {
    && Enabled(RefusingState(r, i), RefusingLabels(r)[i])
    && RefusingState(r, i + 1) == Apply(RefusingState(r, i), RefusingLabels(r)[i])
  }

  lemma RefusingPosts(r: Range)
    requires r.len > 0
    ensures RefusingStep(r, 0) && RefusingStep(r, 1) && RefusingStep(r, 2) && RefusingStep(r, 3)
  {
    StrandingPosts(r);
  }

  lemma RefusingWalk(r: Range)
    ensures RefusingStep(r, 4) && RefusingStep(r, 5)
  {
  }

  lemma RefusingAck(r: Range)
    ensures RefusingStep(r, 6) && RefusingStep(r, 7)
  {
    assert {0} + {1} == {0, 1};
    assert Enabled(RefusingState(r, 6), Ack(1));
    assert [Step(2, Reserve(r), 2, 1)][0 := Step(2, Reserve(r), 2, 2)] == [Step(2, Reserve(r), 2, 2)];
  }

  lemma RefusingTakesCharge(r: Range)
    ensures RefusingStep(r, 8) && RefusingStep(r, 9)
  {
  }

  lemma RefusingCleans(r: Range)
    ensures RefusingStep(r, 10)
  {
  }

  lemma RefusingPostsAgain(r: Range)
    requires r.len > 0
    ensures RefusingStep(r, 11) && RefusingStep(r, 12)
  {
    assert RefusingState(r, 12).procs.Keys == {0, 1};
  }

  lemma JoinIsRefusedThenPosted(r: Range)
    requires r.len > 0
    ensures var states := seq(14, i requires 0 <= i < 14 => RefusingState(r, i));
      IsFullRun(0, states, RefusingLabels(r)) && states[13].pending == Some(r)
    ensures RefusingLabels(r)[3].JoinRefused? && RefusingLabels(r)[12].PostCommit?
  {
    var states, ls := seq(14, i requires 0 <= i < 14 => RefusingState(r, i)), RefusingLabels(r);
    forall i {:trigger ls[i]} | 0 <= i < |ls|
      ensures Enabled(states[i], ls[i]) && states[i + 1] == Apply(states[i], ls[i])
    {
      RefusingSteps(r, i);
    }
  }

  lemma RefusingSteps(r: Range, i: nat)
    requires r.len > 0 && i < 13
    ensures RefusingStep(r, i)
  {
    if i < 4 {
      RefusingPosts(r);
    } else if i < 6 {
      RefusingWalk(r);
    } else if i < 8 {
      RefusingAck(r);
    } else if i < 11 {
      RefusingTakesCharge(r);
      RefusingCleans(r);
    } else {
      RefusingPostsAgain(r);
    }
  }

  // ----- reservations

  /** A reservation is pending exactly while the log holds its RESERVE step, which is the only
      one and names the same range. */
  lemma PendingIsTheOneReserve(creator: Pid, states: seq<State>, labels: seq<Label>, k: nat)
    requires IsFullRun(creator, states, labels) && k < |states|
    ensures var s := states[k];
      && (s.pending.Some? <==> exists i :: 0 <= i < |s.log| && s.log[i].op.Reserve?)
      && (forall i :: 0 <= i < |s.log| && s.log[i].op.Reserve? ==> s.pending == Some(s.log[i].op.range))
      && (forall i, j :: 0 <= i < j < |s.log| ==> !(s.log[i].op.Reserve? && s.log[j].op.Reserve?))
  {
    ReachableInv(creator, states, labels, k);
    var s := states[k];
    if s.pending.Some? {
      assert s.log[s.obs.reserveSeq - s.log[0].seqNum].op.Reserve?;
    }
  }

  lemma {:induction false} OnlyReserves(creator: Pid, states: seq<State>, labels: seq<Label>, k: nat)
    requires IsFullRun(creator, states, labels) && k < |states|
    requires forall i :: 0 <= i < k ==> labels[i].PostCommit? ==> labels[i].op.Reserve?
    ensures forall i :: 0 <= i < |states[k].log| ==> states[k].log[i].op.Reserve?
  {
    if k > 0 {
      OnlyReserves(creator, states, labels, k - 1);
      var s, l := states[k - 1], labels[k - 1];
      match l
      case Ack(_) =>
      case FreeHead(_) =>
      case PostCommit(_, _) =>
      case _ =>
    }
  }

  /** With RESERVE the only operation ever posted, as in the source, the log never holds more
      than one step. */
  lemma LiveLogHoldsOneStep(creator: Pid, states: seq<State>, labels: seq<Label>, k: nat)
    requires IsFullRun(creator, states, labels) && k < |states|
    requires forall i :: 0 <= i < k ==> labels[i].PostCommit? ==> labels[i].op.Reserve?
    ensures |states[k].log| <= 1
  {
    OnlyReserves(creator, states, labels, k);
    var log := states[k].log;
    assert |log| > 1 ==> log[0].op.Reserve? && log[1].op.Reserve?;
    PendingIsTheOneReserve(creator, states, labels, k);
  }
}
