/** What every step of the cleanup-log protocol keeps. */
module CleanupLogInvariant {
  import opened Basics
  import opened CleanupLog

  // ----- the parts of the invariant

  /** Sequence numbers are contiguous and end at lastSeq, where the tail pointer points. */
  ghost predicate Shape(s: State) {
    && |s.log| <= s.lastSeq && s.tail == LastOf(s.log)
    && forall i :: 0 <= i < |s.log| ==> s.log[i].seqNum == s.lastSeq + 1 - |s.log| + i
  }

  /** One process against a log of `size` steps ending at `last`. */
  ghost predicate ProcOk(last: nat, size: nat, pr: Proc) {
    var head := last + 1 - size;
    && head - 1 <= pr.flush <= last
    && (pr.posting ==> pr.flush == last)
    && match pr.scan
       case Idle => true
       case AtRoot => pr.flush < last
       case Hop(first, at) => ScanOk(head, last, first, at, pr.flush) && at <= pr.flush < last
       case Work(first, at, flagged) =>
         ScanOk(head, last, first, at, pr.flush) && at == pr.flush + 1 && (flagged ==> first == head)
       case Acked(first, at, flagged) =>
         ScanOk(head, last, first, at, pr.flush) && at == pr.flush && (flagged ==> first == head)
       case WantRoot => size > 0
       case CleanEnter => size > 0
       case Clean(at) => size > 0 && at == head
  }

  /** A scan stands on a step of the log; if the head it started from is gone, then it has
      already acknowledged the head that took its place. */
  ghost predicate ScanOk(head: int, last: nat, first: nat, at: nat, flush: nat) {
    first <= head <= at <= last && (first < head ==> head <= flush)
  }

  ghost predicate ProcsOk(s: State) {
    forall p :: p in s.procs ==> ProcOk(s.lastSeq, |s.log|, s.procs[p])
  }

  /** Two threads' locks do not clash. */
  ghost predicate Compatible(x: Proc, y: Proc) {
    && !(RootExclusive(x) && (RootExclusive(y) || RootShared(y)))
    && !(RootExclusive(y) && RootShared(x))
    && (x.scan.Work? || x.scan.Acked? || x.scan.Clean? ==> !Holds(y, x.scan.at))
    && (y.scan.Work? || y.scan.Acked? || y.scan.Clean? ==> !Holds(x, y.scan.at))
  }

  ghost predicate LocksOk(s: State) {
    && (forall p, q :: p in s.procs && q in s.procs && p != q ==> Compatible(s.procs[p], s.procs[q]))
    && (forall p :: p in s.procs ==> OwnLocksOk(s.procCount, s.procs[p]))
  }

  /** The main thread of a process and its background thread do not both hold the root. */
  ghost predicate OwnLocksOk(procCount: nat, pr: Proc) {
    pr.posting ==> procCount > 1 && !pr.scan.AtRoot? && !pr.scan.CleanEnter? && !pr.scan.Clean?
  }

  /** The ledger of a step agrees with its two counters and with the flush points. */
  ghost predicate BookOk(procs: map<Pid, Proc>, step: Step, book: Ledger) {
    && |book.counted| + book.ghosts == step.ackTarg
    && |book.acked| == step.ackCount
    && book.acked <= book.counted
    && forall p :: p in book.counted - book.acked <==> p in procs && procs[p].flush < step.seqNum
  }

  ghost predicate Entries(s: State) {
    forall i :: 0 <= i < |s.log| ==>
      s.log[i].seqNum in s.obs.ledger && BookOk(s.procs, s.log[i], s.obs.ledger[s.log[i].seqNum])
  }

  /** A unit of ackTarg without an owner stays for all later steps. */
  ghost predicate GhostsOk(s: State) {
    && (forall n :: n in s.obs.ledger ==> n <= s.lastSeq && s.obs.ledger[n].ghosts <= s.obs.refused)
    && (forall m, n :: m in s.obs.ledger && n in s.obs.ledger && m < n ==>
          s.obs.ledger[m].ghosts <= s.obs.ledger[n].ghosts)
  }

  ghost predicate Books(s: State) {
    s.procCount == |s.procs| + s.obs.refused && Entries(s) && GhostsOk(s)
  }

  /** The log holds a RESERVE step exactly while a reservation is pending, and only one. */
  ghost predicate PendingOk(s: State) {
    && (forall i :: 0 <= i < |s.log| && s.log[i].op.Reserve? ==>
          && s.pending == Some(s.log[i].op.range)
          && s.log[i].seqNum == s.obs.reserveSeq)
    && (s.pending.Some? ==>
          && InLog(s.log, s.obs.reserveSeq)
          && StepAt(s.log, s.obs.reserveSeq).op == Reserve(s.pending.value)
          && s.pending.value.len > 0)
  }

  /** Exactly the cleaner is flagged, and it exists exactly while the head is fully
      acknowledged, unless it died. */
  ghost predicate CleanerOk(s: State) {
    && (forall p :: p in s.procs ==> (Flagged(s.procs[p]) <==> s.obs.cleaner == Some(p)))
    && (s.obs.cleaner.Some? ==> s.obs.cleaner.value in s.procs && !s.obs.stranded)
    && (s.obs.cleaner.Some? || s.obs.stranded <==> HeadDone(s.log))
  }

  ghost predicate Inv(s: State) {
    Shape(s) && ProcsOk(s) && LocksOk(s) && Books(s) && PendingOk(s) && CleanerOk(s)
  }

  // ----- counting

  lemma SubsetSize<T>(a: set<T>, b: set<T>)
    requires a <= b
    ensures |a| <= |b|
    ensures |a| == |b| ==> a == b
    ensures |b - a| == |b| - |a|
  {
    assert b == a + (b - a);
    if |a| == |b| {
      assert |b - a| == 0;
    }
  }

  /** A fully acknowledged step leaves nobody behind. */
  lemma DoneLeavesNobodyBehind(procs: map<Pid, Proc>, step: Step, book: Ledger)
    requires BookOk(procs, step, book)
    ensures step.ackCount <= step.ackTarg
    ensures Done(step) <==> book.ghosts == 0 && book.acked == book.counted
    ensures Done(step) ==> forall p :: p in procs ==> procs[p].flush >= step.seqNum
  {
    SubsetSize(book.acked, book.counted);
    if Done(step) {
      forall p | p in procs ensures procs[p].flush >= step.seqNum {
        assert p !in book.counted - book.acked;
      }
    }
  }

  // ----- the asserts of the source

  lemma BookHasRoom(procs: map<Pid, Proc>, step: Step, book: Ledger, p: Pid)
    requires BookOk(procs, step, book) && p in procs && procs[p].flush < step.seqNum
    ensures step.ackCount < step.ackTarg
  {
    SubsetSize(book.acked, book.counted);
    SubsetSize({p}, book.counted - book.acked);
  }

  /** A thread that still has to acknowledge a step finds room for its acknowledgement. */
  lemma AckHasRoom(s: State, p: Pid)
    requires Shape(s) && ProcsOk(s) && Entries(s) && At(s, Ack(p))
    ensures Asserts(s, Ack(p))
  {
    assert ProcOk(s.lastSeq, |s.log|, s.procs[p]);
    var i := s.procs[p].scan.at - s.log[0].seqNum;
    BookHasRoom(s.procs, s.log[i], s.obs.ledger[s.log[i].seqNum], p);
  }

  lemma CleanerAsserts(s: State, p: Pid)
    requires Inv(s) && At(s, FreeHead(p))
    ensures Asserts(s, FreeHead(p))
  {
    assert ProcOk(s.lastSeq, |s.log|, s.procs[p]);
    if |s.log| > 1 {
      DoneLeavesNobodyBehind(s.procs, s.log[1], s.obs.ledger[s.log[1].seqNum]);
    }
  }

  lemma WalkAsserts(s: State, l: Label)
    requires Shape(s) && ProcsOk(s) && At(s, l)
    requires l.Enter? || l.LockHead? || l.HopNext? || l.Advance? || l.TakeRoot? || l.PostCommit?
    ensures Asserts(s, l)
  {
    assert ProcOk(s.lastSeq, |s.log|, s.procs[l.p]);
  }

  /** No assert of the source fails, and no null pointer is followed, whether or not the lock that
      the thread is about to wait for is free. */
  lemma AssertsHold(s: State, l: Label)
    requires Inv(s) && At(s, l)
    ensures Asserts(s, l)
  {
    match l
    case Ack(p) => AckHasRoom(s, p);
    case FreeHead(p) => CleanerAsserts(s, p);
    case Depart(p) => SubsetSize({p}, s.procs.Keys);
    case TakeHead(p) => assert Flagged(s.procs[p]);
    case Join(_) =>
    case JoinRefused =>
    case PostBegin(_) =>
    case PostAbandon(_) =>
    case _ => WalkAsserts(s, l);
  }

  // ----- steps that only move one thread

  /** The thread of `p` moves without touching its flush point or the shared fields. */
  lemma QuietStep(s: State, p: Pid, pr: Proc)
    requires Inv(s) && p in s.procs
    requires pr.flush == s.procs[p].flush
    requires ProcOk(s.lastSeq, |s.log|, pr)
    requires Flagged(pr) == Flagged(s.procs[p])
    requires OwnLocksOk(s.procCount, pr)
    requires forall q :: q in s.procs && q != p ==> Compatible(pr, s.procs[q])
    ensures Inv(s.(procs := s.procs[p := pr]))
  {
    QuietBooks(s, p, pr);
    QuietLocks(s, p, pr);
  }

  lemma QuietBooks(s: State, p: Pid, pr: Proc)
    requires Books(s) && p in s.procs && pr.flush == s.procs[p].flush
    ensures Books(s.(procs := s.procs[p := pr]))
  {
    var t := s.(procs := s.procs[p := pr]);
    assert t.procs.Keys == s.procs.Keys;
    forall i | 0 <= i < |t.log|
      ensures BookOk(t.procs, t.log[i], t.obs.ledger[t.log[i].seqNum])
    {
      OtherBook(s.procs, s.log[i], s.obs.ledger[s.log[i].seqNum], p, pr);
    }
  }

  lemma QuietLocks(s: State, p: Pid, pr: Proc)
    requires LocksOk(s) && p in s.procs && OwnLocksOk(s.procCount, pr)
    requires forall q :: q in s.procs && q != p ==> Compatible(pr, s.procs[q])
    ensures LocksOk(s.(procs := s.procs[p := pr]))
  {
    var t := s.(procs := s.procs[p := pr]);
    forall x, y | x in t.procs && y in t.procs && x != y
      ensures Compatible(t.procs[x], t.procs[y])
    {
      assert x != p && y != p ==> Compatible(s.procs[x], s.procs[y]);
      if y == p {
        assert Compatible(pr, s.procs[x]);
      }
    }
  }

  /** The new position of `p` clashes with nobody if the one lock it gains was free. */
  lemma StillCompatible(x: Proc, x': Proc, y: Proc)
    requires Compatible(x, y)
    requires RootExclusive(x') ==> RootExclusive(x) || (!RootExclusive(y) && !RootShared(y))
    requires RootShared(x') ==> RootShared(x) || !RootExclusive(y)
    requires x'.scan.Hop? ==> !HoldsExclusive(y, x'.scan.at)
    requires x'.scan.Work? || x'.scan.Acked? || x'.scan.Clean? ==> !Holds(y, x'.scan.at)
    ensures Compatible(x', y)
  {
  }

  lemma QuietKeepsInv(s: State, l: Label)
    requires Inv(s) && Enabled(s, l)
    requires l.PostBegin? || l.PostAbandon? || l.Enter? || l.TakeRoot?
    ensures Inv(Apply(s, l))
  {
    var p, pr := l.p, Apply(s, l).procs[l.p];
    assert ProcOk(s.lastSeq, |s.log|, s.procs[p]);
    forall q | q in s.procs && q != p ensures Compatible(pr, s.procs[q]) {
      assert Compatible(s.procs[p], s.procs[q]);
      StillCompatible(s.procs[p], pr, s.procs[q]);
    }
    QuietStep(s, p, pr);
  }

  /** Taking the next lock of a walk leaves the thread in order. */
  lemma NextPosition(s: State, l: Label)
    requires Shape(s) && ProcsOk(s) && Enabled(s, l)
    requires l.LockHead? || l.HopNext? || l.Advance? || l.TakeHead?
    ensures var pr := Apply(s, l).procs[l.p];
      && Apply(s, l) == s.(procs := s.procs[l.p := pr])
      && pr.flush == s.procs[l.p].flush && pr.posting == s.procs[l.p].posting
      && ProcOk(s.lastSeq, |s.log|, pr)
      && Flagged(pr) == Flagged(s.procs[l.p])
      && !pr.scan.AtRoot? && (pr.scan.CleanEnter? || pr.scan.Clean? ==> s.procs[l.p].scan.CleanEnter?)
  {
    assert ProcOk(s.lastSeq, |s.log|, s.procs[l.p]);
  }

  lemma WalkKeepsInv(s: State, l: Label)
    requires Inv(s) && Enabled(s, l)
    requires l.LockHead? || l.HopNext? || l.Advance? || l.TakeHead?
    ensures Inv(Apply(s, l))
  {
    var p, pr := l.p, Apply(s, l).procs[l.p];
    NextPosition(s, l);
    forall q | q in s.procs && q != p ensures Compatible(pr, s.procs[q]) {
      assert Compatible(s.procs[p], s.procs[q]);
      WalkIsCompatible(s, l, q);
    }
    QuietStep(s, p, pr);
  }

  lemma WalkIsCompatible(s: State, l: Label, q: Pid)
    requires Enabled(s, l) && (l.LockHead? || l.HopNext? || l.Advance? || l.TakeHead?)
    requires q in s.procs && q != l.p && Compatible(s.procs[l.p], s.procs[q])
    ensures Compatible(Apply(s, l).procs[l.p], s.procs[q])
  {
    StillCompatible(s.procs[l.p], Apply(s, l).procs[l.p], s.procs[q]);
  }

  // ----- acknowledging

  lemma AckKeepsProcs(s: State, p: Pid)
    requires Shape(s) && ProcsOk(s) && LocksOk(s) && Enabled(s, Ack(p))
    ensures var t := Apply(s, Ack(p)); Shape(t) && ProcsOk(t) && LocksOk(t)
  {
    var t := Apply(s, Ack(p));
    assert ProcOk(s.lastSeq, |s.log|, s.procs[p]);
    forall x, y | x in t.procs && y in t.procs && x != y
      ensures Compatible(t.procs[x], t.procs[y])
    {
      assert Compatible(s.procs[x], s.procs[y]);
    }
    assert OwnLocksOk(s.procCount, s.procs[p]);
  }

  lemma AckEntry(s: State, p: Pid, i: nat)
    requires Shape(s) && ProcsOk(s) && Entries(s) && Enabled(s, Ack(p)) && i < |s.log|
    ensures var t := Apply(s, Ack(p)); var n := s.log[i].seqNum;
      && t.log[i].seqNum == n && n in t.obs.ledger
      && BookOk(t.procs, t.log[i], t.obs.ledger[n])
  {
    var pr := Apply(s, Ack(p)).procs[p];
    var n := s.log[i].seqNum;
    assert ProcOk(s.lastSeq, |s.log|, s.procs[p]);
    assert BookOk(s.procs, s.log[i], s.obs.ledger[n]);
    if n == s.procs[p].scan.at {
      AckMovesOneBook(s.procs, s.log[i], s.obs.ledger[n], p, pr);
    } else {
      OtherBook(s.procs, s.log[i], s.obs.ledger[n], p, pr);
    }
  }

  lemma AckedIsBooked(s: State, p: Pid)
    requires Shape(s) && ProcsOk(s) && Entries(s) && Enabled(s, Ack(p))
    ensures s.procs[p].scan.at in s.obs.ledger
  {
    assert ProcOk(s.lastSeq, |s.log|, s.procs[p]);
    assert s.log[s.procs[p].scan.at - s.log[0].seqNum].seqNum == s.procs[p].scan.at;
  }

  lemma AckKeepsBooks(s: State, p: Pid)
    requires Shape(s) && ProcsOk(s) && Books(s) && Enabled(s, Ack(p))
    ensures Books(Apply(s, Ack(p)))
  {
    QuietCount(s.procs, p, Apply(s, Ack(p)).procs[p]);
    AckedIsBooked(s, p);
    AckKeepsEntries(s, p);
  }

  lemma AckKeepsEntries(s: State, p: Pid)
    requires Shape(s) && ProcsOk(s) && Entries(s) && Enabled(s, Ack(p))
    ensures Entries(Apply(s, Ack(p)))
  {
    var t := Apply(s, Ack(p));
    forall i | 0 <= i < |s.log|
      ensures t.log[i].seqNum == s.log[i].seqNum && t.log[i].seqNum in t.obs.ledger
      ensures BookOk(t.procs, t.log[i], t.obs.ledger[t.log[i].seqNum])
    {
      AckEntry(s, p, i);
    }
  }

  lemma AckMovesOneBook(procs: map<Pid, Proc>, step: Step, book: Ledger, p: Pid, pr: Proc)
    requires BookOk(procs, step, book) && p in procs
    requires procs[p].flush + 1 == step.seqNum == pr.flush
    ensures BookOk(procs[p := pr], step.(ackCount := step.ackCount + 1), book.(acked := book.acked + {p}))
  {
    assert p in book.counted - book.acked;
    forall q
      ensures q in book.counted - (book.acked + {p}) <==>
              q in procs[p := pr] && procs[p := pr][q].flush < step.seqNum
    {
      assert q in book.counted - book.acked <==> q in procs && procs[q].flush < step.seqNum;
    }
  }

  /** A step that `p` is on the same side of before and after. */
  lemma OtherBook(procs: map<Pid, Proc>, step: Step, book: Ledger, p: Pid, pr: Proc)
    requires BookOk(procs, step, book)
    requires pr.flush < step.seqNum <==> p in procs && procs[p].flush < step.seqNum
    ensures BookOk(procs[p := pr], step, book)
  {
    forall q
      ensures q in book.counted - book.acked <==>
              q in procs[p := pr] && procs[p := pr][q].flush < step.seqNum
    {
      assert q in book.counted - book.acked <==> q in procs && procs[q].flush < step.seqNum;
    }
  }

  /** The last acknowledger of the head always takes charge: it cannot have started its scan
      from an older head. */
  lemma AckKeepsCleaner(s: State, p: Pid)
    requires Shape(s) && ProcsOk(s) && CleanerOk(s) && PendingOk(s) && Enabled(s, Ack(p))
    ensures CleanerOk(Apply(s, Ack(p))) && PendingOk(Apply(s, Ack(p)))
  {
    var t := Apply(s, Ack(p));
    assert ProcOk(s.lastSeq, |s.log|, s.procs[p]);
    var i := s.procs[p].scan.at - s.log[0].seqNum;
    assert forall k :: 0 <= k < |s.log| && k != i ==> t.log[k] == s.log[k];
  }

  lemma AckKeepsInv(s: State, p: Pid)
    requires Inv(s) && Enabled(s, Ack(p))
    ensures Inv(Apply(s, Ack(p)))
  {
    AckKeepsProcs(s, p);
    AckKeepsBooks(s, p);
    AckKeepsCleaner(s, p);
  }

  // ----- posting

  /** The poster's own thread is past the log, and so is every thread that it met. */
  lemma PostKeepsProcs(s: State, p: Pid, op: Op)
    requires Shape(s) && ProcsOk(s) && LocksOk(s) && Enabled(s, PostCommit(p, op))
    ensures var t := Apply(s, PostCommit(p, op)); Shape(t) && ProcsOk(t)
  {
    var t := Apply(s, PostCommit(p, op));
    forall q | q in t.procs ensures ProcOk(t.lastSeq, |t.log|, t.procs[q]) {
      assert ProcOk(s.lastSeq, |s.log|, s.procs[q]);
      if q == p {
        assert |s.log| > 0 ==> !Holds(s.procs[p], s.lastSeq);
        assert OwnLocksOk(s.procCount, s.procs[p]);
      } else {
        assert Compatible(s.procs[p], s.procs[q]);
      }
    }
  }

  lemma PostKeepsLocks(s: State, p: Pid, op: Op)
    requires LocksOk(s) && Enabled(s, PostCommit(p, op))
    ensures LocksOk(Apply(s, PostCommit(p, op)))
  {
    var pr := Apply(s, PostCommit(p, op)).procs[p];
    forall q | q in s.procs && q != p ensures Compatible(pr, s.procs[q]) {
      assert Compatible(s.procs[p], s.procs[q]);
    }
    QuietLocks(s, p, pr);
  }

  lemma NewBook(s: State, p: Pid, op: Op)
    requires Shape(s) && ProcsOk(s) && Books(s) && Enabled(s, PostCommit(p, op))
    ensures var t := Apply(s, PostCommit(p, op));
      BookOk(t.procs, t.log[|s.log|], t.obs.ledger[t.lastSeq])
  {
    assert forall q :: q in s.procs ==> ProcOk(s.lastSeq, |s.log|, s.procs[q]);
  }

  lemma OldBook(s: State, p: Pid, op: Op, i: nat)
    requires Shape(s) && Entries(s) && Enabled(s, PostCommit(p, op)) && i < |s.log|
    ensures var t := Apply(s, PostCommit(p, op)); var n := s.log[i].seqNum;
      && t.log[i] == s.log[i] && n in t.obs.ledger && BookOk(t.procs, t.log[i], t.obs.ledger[n])
  {
    var n := s.log[i].seqNum;
    assert BookOk(s.procs, s.log[i], s.obs.ledger[n]);
    OtherBook(s.procs, s.log[i], s.obs.ledger[n], p, Apply(s, PostCommit(p, op)).procs[p]);
  }

  lemma PostKeepsEntries(s: State, p: Pid, op: Op)
    requires Shape(s) && ProcsOk(s) && Books(s) && Enabled(s, PostCommit(p, op))
    ensures Entries(Apply(s, PostCommit(p, op)))
  {
    var t := Apply(s, PostCommit(p, op));
    NewBook(s, p, op);
    assert |t.log| == |s.log| + 1 && t.log[|s.log|].seqNum == t.lastSeq;
    forall i | 0 <= i < |s.log|
      ensures t.log[i].seqNum in t.obs.ledger
      ensures BookOk(t.procs, t.log[i], t.obs.ledger[t.log[i].seqNum])
    {
      OldBook(s, p, op, i);
    }
  }

  lemma PostKeepsGhosts(s: State, p: Pid, op: Op)
    requires GhostsOk(s) && Enabled(s, PostCommit(p, op))
    ensures GhostsOk(Apply(s, PostCommit(p, op)))
  {
  }

  lemma PostKeepsBooks(s: State, p: Pid, op: Op)
    requires Shape(s) && ProcsOk(s) && Books(s) && Enabled(s, PostCommit(p, op))
    ensures Books(Apply(s, PostCommit(p, op)))
  {
    PostKeepsEntries(s, p, op);
    PostKeepsGhosts(s, p, op);
    QuietCount(s.procs, p, Apply(s, PostCommit(p, op)).procs[p]);
  }

  lemma QuietCount(procs: map<Pid, Proc>, p: Pid, pr: Proc)
    requires p in procs
    ensures |procs[p := pr]| == |procs|
  {
    assert procs[p := pr].Keys == procs.Keys;
  }

  lemma PostKeepsCleaner(s: State, p: Pid, op: Op)
    requires Shape(s) && LocksOk(s) && CleanerOk(s) && PendingOk(s) && Enabled(s, PostCommit(p, op))
    ensures CleanerOk(Apply(s, PostCommit(p, op))) && PendingOk(Apply(s, PostCommit(p, op)))
  {
    var t := Apply(s, PostCommit(p, op));
    assert forall i :: 0 <= i < |s.log| ==> t.log[i] == s.log[i];
    assert OwnLocksOk(s.procCount, s.procs[p]);
  }

  lemma PostKeepsInv(s: State, p: Pid, op: Op)
    requires Inv(s) && Enabled(s, PostCommit(p, op))
    ensures Inv(Apply(s, PostCommit(p, op)))
  {
    PostKeepsProcs(s, p, op);
    PostKeepsLocks(s, p, op);
    PostKeepsBooks(s, p, op);
    PostKeepsCleaner(s, p, op);
  }

  // ----- freeing the head

  /** The thread of `q` while the cleaner `p` frees the head: it stands beyond the next step,
      so it has acknowledged that step too. */
  lemma FreeKeepsProcs(s: State, p: Pid)
    requires Inv(s) && Enabled(s, FreeHead(p))
    ensures var t := Apply(s, FreeHead(p)); Shape(t) && ProcsOk(t)
  {
    var t := Apply(s, FreeHead(p));
    assert Flagged(s.procs[p]);
    DoneLeavesNobodyBehind(s.procs, s.log[0], s.obs.ledger[s.log[0].seqNum]);
    forall q | q in t.procs ensures ProcOk(t.lastSeq, |t.log|, t.procs[q]) {
      assert ProcOk(s.lastSeq, |s.log|, s.procs[q]);
      if q != p {
        assert Compatible(s.procs[p], s.procs[q]);
        BeyondTheCleaner(s, p, q);
      } else {
        assert OwnLocksOk(s.procCount, s.procs[p]);
      }
    }
  }

  lemma BeyondTheCleaner(s: State, p: Pid, q: Pid)
    requires Shape(s) && CleanerOk(s) && Enabled(s, FreeHead(p))
    requires q in s.procs && q != p && Compatible(s.procs[p], s.procs[q])
    requires ProcOk(s.lastSeq, |s.log|, s.procs[q]) && s.procs[q].flush >= s.log[0].seqNum
    ensures ProcOk(s.lastSeq, |s.log| - 1, s.procs[q])
  {
    assert !Flagged(s.procs[q]);
    assert |s.log| > 1 ==> !Holds(s.procs[q], s.log[1].seqNum);
  }

  lemma FreeKeepsLocks(s: State, p: Pid)
    requires LocksOk(s) && Enabled(s, FreeHead(p))
    ensures LocksOk(Apply(s, FreeHead(p)))
  {
    var pr := Apply(s, FreeHead(p)).procs[p];
    forall q | q in s.procs && q != p ensures Compatible(pr, s.procs[q]) {
      assert Compatible(s.procs[p], s.procs[q]);
      StillCompatible(s.procs[p], pr, s.procs[q]);
    }
    assert OwnLocksOk(s.procCount, s.procs[p]);
    QuietLocks(s, p, pr);
  }

  lemma FreeKeepsBooks(s: State, p: Pid)
    requires Books(s) && Enabled(s, FreeHead(p))
    ensures Books(Apply(s, FreeHead(p)))
  {
    var t := Apply(s, FreeHead(p));
    QuietBooks(s, p, t.procs[p]);
    var u := s.(procs := t.procs);
    forall i | 0 <= i < |t.log|
      ensures t.log[i] == u.log[i + 1]
      ensures BookOk(t.procs, t.log[i], t.obs.ledger[t.log[i].seqNum])
    {
      assert BookOk(u.procs, u.log[i + 1], u.obs.ledger[u.log[i + 1].seqNum]);
    }
  }

  lemma FreeKeepsCleaner(s: State, p: Pid)
    requires Shape(s) && CleanerOk(s) && PendingOk(s) && Enabled(s, FreeHead(p))
    ensures CleanerOk(Apply(s, FreeHead(p))) && PendingOk(Apply(s, FreeHead(p)))
  {
    var t := Apply(s, FreeHead(p));
    assert Flagged(s.procs[p]);
    assert forall i :: 0 <= i < |t.log| ==> t.log[i] == s.log[i + 1];
  }

  lemma FreeKeepsInv(s: State, p: Pid)
    requires Inv(s) && Enabled(s, FreeHead(p))
    ensures Inv(Apply(s, FreeHead(p)))
  {
    FreeKeepsProcs(s, p);
    FreeKeepsLocks(s, p);
    FreeKeepsBooks(s, p);
    FreeKeepsCleaner(s, p);
  }

  // ----- joining and departing

  lemma JoinKeepsBooks(s: State, p: Pid)
    requires Shape(s) && Books(s) && Enabled(s, Join(p))
    ensures Books(Apply(s, Join(p)))
  {
    var t := Apply(s, Join(p));
    assert t.procs.Keys == s.procs.Keys + {p};
    forall i | 0 <= i < |t.log|
      ensures BookOk(t.procs, t.log[i], t.obs.ledger[t.log[i].seqNum])
    {
      OtherBook(s.procs, s.log[i], s.obs.ledger[s.log[i].seqNum], p, t.procs[p]);
    }
  }

  lemma JoinKeepsLocks(s: State, p: Pid)
    requires LocksOk(s) && Enabled(s, Join(p))
    ensures LocksOk(Apply(s, Join(p)))
  {
    var t := Apply(s, Join(p));
    forall x, y | x in t.procs && y in t.procs && x != y
      ensures Compatible(t.procs[x], t.procs[y])
    {
      assert x != p && y != p ==> Compatible(s.procs[x], s.procs[y]);
    }
    assert forall q :: q in s.procs ==> OwnLocksOk(s.procCount, s.procs[q]);
  }

  lemma JoinKeepsInv(s: State, p: Pid)
    requires Inv(s) && Enabled(s, Join(p))
    ensures Inv(Apply(s, Join(p)))
  {
    JoinKeepsBooks(s, p);
    JoinKeepsLocks(s, p);
    var t := Apply(s, Join(p));
    assert ProcsOk(t);
    assert CleanerOk(t) && PendingOk(t);
  }

  lemma JoinRefusedKeepsInv(s: State)
    requires Inv(s) && Enabled(s, JoinRefused)
    ensures Inv(Apply(s, JoinRefused))
  {
    var t := Apply(s, JoinRefused);
    assert LocksOk(t) by {
      assert forall q :: q in s.procs ==> OwnLocksOk(s.procCount, s.procs[q]);
    }
  }

  lemma DepartKeepsBooks(s: State, p: Pid)
    requires Shape(s) && Books(s) && Enabled(s, Depart(p))
    ensures Books(Apply(s, Depart(p)))
  {
    var t := Apply(s, Depart(p));
    assert t.procs.Keys == s.procs.Keys - {p};
    forall i | 0 <= i < |t.log|
      ensures BookOk(t.procs, t.log[i], t.obs.ledger[t.log[i].seqNum])
    {
      var book := s.obs.ledger[s.log[i].seqNum];
      assert BookOk(s.procs, s.log[i], book);
      forall q
        ensures q in book.counted - book.acked <==> q in t.procs && t.procs[q].flush < t.log[i].seqNum
      {
        assert q in book.counted - book.acked <==> q in s.procs && s.procs[q].flush < s.log[i].seqNum;
      }
    }
  }

  lemma DepartKeepsInv(s: State, p: Pid)
    requires Inv(s) && Enabled(s, Depart(p))
    ensures Inv(Apply(s, Depart(p)))
  {
    DepartKeepsBooks(s, p);
    DepartKeepsLocks(s, p);
    DepartKeepsRest(s, p);
  }

  lemma DepartKeepsRest(s: State, p: Pid)
    requires Shape(s) && ProcsOk(s) && PendingOk(s) && CleanerOk(s) && Enabled(s, Depart(p))
    ensures var t := Apply(s, Depart(p)); Shape(t) && ProcsOk(t) && PendingOk(t) && CleanerOk(t)
  {
    var t := Apply(s, Depart(p));
    assert ProcsOk(t) && CleanerOk(t) && PendingOk(t);
  }

  lemma DepartKeepsLocks(s: State, p: Pid)
    requires LocksOk(s) && Enabled(s, Depart(p))
    ensures LocksOk(Apply(s, Depart(p)))
  {
    var t := Apply(s, Depart(p));
    forall x, y | x in t.procs && y in t.procs && x != y
      ensures Compatible(t.procs[x], t.procs[y])
    {
      assert Compatible(s.procs[x], s.procs[y]);
    }
    assert forall q :: q in t.procs ==> !RootExclusive(s.procs[q]);
  }

  // ----- every step, every run

  /** Labels that change who is registered. */
  predicate Registers(l: Label) {
    l.Join? || l.JoinRefused? || l.Depart?
  }

  /** Labels that change the steps of the log. */
  predicate ChangesLog(l: Label) {
    l.PostCommit? || l.Ack? || l.FreeHead?
  }

  lemma RegisteringKeepsInv(s: State, l: Label)
    requires Inv(s) && Enabled(s, l) && Registers(l)
    ensures Inv(Apply(s, l))
  {
    match l
    case Join(p) => JoinKeepsInv(s, p);
    case JoinRefused => JoinRefusedKeepsInv(s);
    case Depart(p) => DepartKeepsInv(s, p);
  }

  lemma ChangeKeepsInv(s: State, l: Label)
    requires Inv(s) && Enabled(s, l) && ChangesLog(l)
    ensures Inv(Apply(s, l))
  {
    match l
    case PostCommit(p, op) => PostKeepsInv(s, p, op);
    case Ack(p) => AckKeepsInv(s, p);
    case FreeHead(p) => FreeKeepsInv(s, p);
  }

  lemma StepKeepsInv(s: State, l: Label)
    requires Inv(s) && Enabled(s, l)
    ensures Inv(Apply(s, l))
  {
    if Registers(l) {
      RegisteringKeepsInv(s, l);
    } else if ChangesLog(l) {
      ChangeKeepsInv(s, l);
    } else if l.LockHead? || l.HopNext? || l.Advance? || l.TakeHead? {
      WalkKeepsInv(s, l);
    } else {
      QuietKeepsInv(s, l);
    }
  }

  lemma {:induction false} RunKeepsInv(states: seq<State>, labels: seq<Label>, k: nat)
    requires IsRun(states, labels) && Inv(states[0]) && k < |states|
    ensures Inv(states[k])
  {
    if k > 0 {
      RunKeepsInv(states, labels, k - 1);
      StepKeepsInv(states[k - 1], labels[k - 1]);
    }
  }
}
