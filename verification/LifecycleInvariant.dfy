/** The inductive invariant of the task lifecycle. No operation checks all of what keeps it
    safe; the guarantees follow only from what every operation keeps. */
module LifecycleInvariant {
  import opened Domain
  import opened Ledger
  import opened Lifecycle

  // ---------------------------------------------------------------------------------------
  // The invariant
  // ---------------------------------------------------------------------------------------

  /** A task has a lease row exactly while it is LEASED or RUNNING, and then only one. */
  ghost predicate LeaseMatchesStatus(tasks: map<TaskId, Task>, leases: map<LeaseId, Lease>) {
    && (forall l :: l in leases ==> leases[l].task in tasks && IsActive(tasks[leases[l].task].status))
    && (forall l, m :: l in leases && m in leases && leases[l].task == leases[m].task ==> l == m)
    && (forall t :: t in tasks && IsActive(tasks[t].status) ==> exists l :: l in leases && leases[l].task == t)
  }

  ghost predicate IdsIssued(s: State) {
    && (forall t :: t in s.tasks ==> t < s.nextTask)
    && (forall l :: l in s.leases ==> l < s.nextLease)
    && (forall k :: k in s.keys ==> s.keys[k] in s.tasks)
  }

  ghost predicate Tables(s: State) { LeaseMatchesStatus(s.tasks, s.leases) && IdsIssued(s) }

  /** The window in which a lease may still be valid, whatever extensions were requested. */
  predicate InLifetime(c: Config, l: Lease) {
    || l.expiresAt <= l.acquiredAt + c.maxLeaseTtl * SECOND
    || l.expiresAt < l.acquiredAt + (c.maxLeaseLifetime + c.maxLeaseTtl) * SECOND
  }

  ghost predicate LeasesInLifetime(c: Config, leases: map<LeaseId, Lease>, now: Time) {
    forall l :: l in leases ==>
      && leases[l].acquiredAt <= now
      && 0 <= leases[l].renewals <= Max(0, c.maxLeaseRenewals)
      && InLifetime(c, leases[l])
  }

  ghost predicate Lifetimes(c: Config, s: State) { LeasesInLifetime(c, s.leases, s.now) }

  /** The receipt types that end a lease. */
  predicate EndsLease(t: ReceiptType) {
    t in {TaskCompleted, TaskFailed, TaskCanceled, TaskRetryScheduled, LeaseExpired}
  }

  /** Row `i` of the ledger is consistent with the tables. */
  ghost predicate RowFits(s: State, i: nat)
    requires i < |s.ledger|
  {
    var d := s.ledger[i].says;
    && s.ledger[i].id == i
    && (d.task.Some? ==> d.task.value in s.tasks)
    && (d.lease.Some? ==> d.lease.value < s.nextLease)
    && (EndsLease(d.rtype) && d.lease.Some? ==> d.lease.value !in s.leases)
    && (d.rtype.TaskStarted? && d.lease.Some? && d.lease.value in s.leases ==>
          s.leases[d.lease.value].task in s.tasks && s.tasks[s.leases[d.lease.value].task].status.Running?)
    && (IsTerminalType(d.rtype) ==> ClosesAtMostOwn(s.ledger, i))
  }

  /** A terminal receipt names one earlier task.assigned receipt of its own task, or, being a
      success that cannot be located, none. */
  predicate ClosesAtMostOwn(l: Rows, i: nat)
    requires i < |l|
  {
    var d := l[i].says;
    && d.task.Some?
    && |d.parents| <= 1
    && (d.parents != [] ==> d.parents[0] < i && IsAssignment(l[d.parents[0]], d.task.value))
    && (d.parents == [] <==> !Locatable(d))
  }

  ghost predicate Records(s: State) {
    && (forall i :: 0 <= i < |s.ledger| ==> RowFits(s, i))
    && (forall t :: t in s.tasks ==> exists i :: 0 <= i < |s.ledger| && IsAssignment(s.ledger[i], t))
  }

  /** A success that does not say where the work is. */
  predicate Unlocatable(row: Task) {
    row.status.Succeeded? && row.result.Some? && row.result.value.artifacts.None?
  }

  /** Receipts and task row agree about attempts, outcome and anomalies. */
  ghost predicate Accounted(row: Task, h: Rows) {
    && row.attempt == Count(h, TaskRetryScheduled)
    && row.attempt <= Max(0, row.maxAttempts - 1)
    && Outcomes(h) == (if IsTerminal(row.status) then [TerminalTypeOf(row.status)] else [])
    && (IsTerminal(row.status) ==> row.result.Some? && row.result.value.outcome == row.status)
    && |Closes(h)| == (if IsTerminal(row.status) && !Unlocatable(row) then 1 else 0)
    && Count(h, SystemAnomaly) == (if Unlocatable(row) then 1 else 0)
  }

  ghost predicate Accounts(s: State) {
    forall t :: t in s.tasks ==> Accounted(s.tasks[t], Of(s.ledger, t))
  }

  /** What a pending call decided before the lock is still right if its lease is still there. */
  ghost predicate CallFits(s: State, k: Call) {
    && k.lease < s.nextLease
    && k.obligation < |s.ledger|
    && IsAssignment(s.ledger[k.obligation], k.task)
    && s.ledger[k.obligation].says.to == k.owner
    && (k.FailCall? && k.lease in s.leases && s.leases[k.lease].task == k.task && k.task in s.tasks ==>
          k.requeue == ShouldRequeue(s.tasks[k.task], k.retryable))
  }

  ghost predicate Pending(s: State) {
    forall k :: k in s.calls ==> CallFits(s, s.calls[k])
  }

  ghost predicate Inv(c: Config, s: State) {
    Tables(s) && Lifetimes(c, s) && Records(s) && Accounts(s) && Pending(s)
  }

  /** Replaying a task's receipts gives back its row and its lease. */
  ghost predicate SyncedTask(s: State, t: TaskId)
    requires t in s.tasks
  {
    var p := Replay(Of(s.ledger, t));
    && p.known
    && p.status == s.tasks[t].status
    && p.attempt == s.tasks[t].attempt
    && (p.lease.Some? ==>
          p.lease.value in s.leases && s.leases[p.lease.value].task == t
          && p.holder == Some(s.leases[p.lease.value].worker))
    && (p.lease.None? ==> p.holder.None? && LeasesOn(s.leases, t) == {})
  }

  /** A task that reconciliation has taken from its holder: the ledger still replays to the lost
      lease, while the task waits in the queue. */
  ghost predicate LapsedTask(s: State, t: TaskId)
    requires t in s.tasks
  {
    var p := Replay(Of(s.ledger, t));
    && p.known && IsActive(p.status) && p.attempt == s.tasks[t].attempt
    && s.tasks[t].status.Queued? && LeasesOn(s.leases, t) == {}
  }

  /** The tasks in `loose` have lapsed, all others replay. */
  ghost predicate Synced(s: State, loose: set<TaskId>) {
    && loose <= s.tasks.Keys
    && forall t :: t in s.tasks ==> if t in loose then LapsedTask(s, t) else SyncedTask(s, t)
  }

  /** The tasks among `loose` that are still in the queue. */
  function Still(s: State, loose: set<TaskId>): set<TaskId> {
    set t | t in loose && t in s.tasks && s.tasks[t].status.Queued?
  }

  /** From `s` to `s'` every task that replays goes on replaying, and one that has lapsed replays
      again as soon as it leaves the queue. */
  ghost predicate Tracks(s: State, s': State) {
    forall loose: set<TaskId> :: Synced(s, loose) ==> Synced(s', Still(s', loose))
  }

  lemma TracksSelf(s: State)
    ensures Tracks(s, s)
  {
    hide LapsedTask, SyncedTask;
    forall loose: set<TaskId> | Synced(s, loose) ensures Synced(s, Still(s, loose)) {
      LapsedAreQueued(s, loose);
    }
  }

  lemma LapsedAreQueued(s: State, loose: set<TaskId>)
    requires Synced(s, loose)
    ensures Still(s, loose) == loose
  {
    forall t | t in loose ensures s.tasks[t].status.Queued? {
      assert LapsedTask(s, t);
    }
  }

  /** Tracking composes if no task leaves the queue and comes back in between. */
  lemma TracksOn(a: State, b: State, c: State)
    requires Tracks(a, b) && Tracks(b, c)
    requires forall t :: t in a.tasks && t in c.tasks && c.tasks[t].status.Queued? ==>
               t in b.tasks && b.tasks[t].status.Queued?
    ensures Tracks(a, c)
  {
    hide LapsedTask, SyncedTask;
    forall loose: set<TaskId> | Synced(a, loose) ensures Synced(c, Still(c, loose)) {
      assert Synced(b, Still(b, loose));
      assert Still(c, Still(b, loose)) == Still(c, loose);
    }
  }

  lemma InitInv(c: Config, now: Time)
    ensures Inv(c, Init(now)) && Synced(Init(now), {})
  {
  }

  // ---------------------------------------------------------------------------------------
  // No transition receipt is ever mistaken for a duplicate
  // ---------------------------------------------------------------------------------------

  lemma {:induction false} NoOutcomeNoTerminal(h: Rows, r: Receipt)
    requires Outcomes(h) == [] && r in h
    ensures !IsTerminalType(r.says.rtype)
  {
    var n := |h| - 1;
    if r != h[n] {
      assert h == h[..n] + [h[n]];
      NoOutcomeNoTerminal(h[..n], r);
    }
  }

  /** Two receipts with one hash have the same type, task and lease. */
  lemma NotStored(l: Rows, d: Statement)
    requires forall r :: r in l && r.says.rtype == d.rtype && r.says.task == d.task ==> r.says.lease != d.lease
    ensures !Stored(l, d)
  {
    forall i | 0 <= i < |l| ensures Hash(l[i].says) != Hash(d) { assert l[i] in l; }
  }

  /** A receipt that would end a live lease, or close an open task, has no earlier copy. */
  lemma ExitIsNew(s: State, t: TaskId, d: Statement)
    requires Records(s) && Accounts(s) && t in s.tasks && d.task == Some(t)
    requires EndsLease(d.rtype)
    requires IsTerminalType(d.rtype) ==> !IsTerminal(s.tasks[t].status)
    requires !IsTerminalType(d.rtype) ==> d.lease.Some? && d.lease.value in s.leases
    ensures !Stored(s.ledger, Stripped(d))
  {
    forall r | r in s.ledger && r.says.rtype == d.rtype && r.says.task == d.task ensures r.says.lease != d.lease {
      var i :| 0 <= i < |s.ledger| && s.ledger[i] == r;
      assert RowFits(s, i);
      if IsTerminalType(d.rtype) {
        OfMember(s.ledger, t, r);
        assert Accounted(s.tasks[t], Of(s.ledger, t));
        NoOutcomeNoTerminal(Of(s.ledger, t), r);
        assert false;
      }
    }
    NotStored(s.ledger, Stripped(d));
  }

  /** Neither has the start of a task that is only leased. */
  lemma StartIsNew(s: State, d: Statement)
    requires Records(s)
    requires d.rtype.TaskStarted? && d.lease.Some? && d.lease.value in s.leases
    requires s.leases[d.lease.value].task in s.tasks && !s.tasks[s.leases[d.lease.value].task].status.Running?
    ensures !Stored(s.ledger, d)
  {
    forall r | r in s.ledger && r.says.rtype == d.rtype && r.says.task == d.task ensures r.says.lease != d.lease {
      var i :| 0 <= i < |s.ledger| && s.ledger[i] == r;
      assert RowFits(s, i);
    }
    NotStored(s.ledger, d);
  }

  /** Neither has any receipt about a lease or a task that is only now being created. */
  lemma FreshIsNew(s: State, d: Statement)
    requires Tables(s) && Records(s)
    requires d.lease == Some(s.nextLease) || d.task == Some(s.nextTask)
    ensures !Stored(s.ledger, d)
  {
    forall r | r in s.ledger && r.says.rtype == d.rtype && r.says.task == d.task ensures r.says.lease != d.lease {
      var i :| 0 <= i < |s.ledger| && s.ledger[i] == r;
      assert RowFits(s, i);
    }
    NotStored(s.ledger, d);
  }

  // ---------------------------------------------------------------------------------------
  // Growing the ledger
  // ---------------------------------------------------------------------------------------

  /** From `s` to `s'` ids, receipts and rows are only added, calls only dropped, and a lease that
      survives still guards the same task with the same attempts left. */
  ghost predicate Persists(s: State, s': State) {
    && s.ledger <= s'.ledger
    && s.tasks.Keys <= s'.tasks.Keys
    && s.nextLease <= s'.nextLease
    && s'.calls.Keys <= s.calls.Keys && (forall k :: k in s'.calls ==> s'.calls[k] == s.calls[k])
    && (forall l :: l in s'.leases && l < s.nextLease ==> LeasePersists(s, s', l))
  }

  ghost predicate LeasePersists(s: State, s': State, l: LeaseId) {
    && l in s.leases && l in s'.leases && s'.leases[l].task == s.leases[l].task
    && s.leases[l].task in s.tasks && s.leases[l].task in s'.tasks
    && s'.tasks[s.leases[l].task].attempt == s.tasks[s.leases[l].task].attempt
    && s'.tasks[s.leases[l].task].maxAttempts == s.tasks[s.leases[l].task].maxAttempts
    && (s.tasks[s.leases[l].task].status.Running? ==> s'.tasks[s.leases[l].task].status.Running?)
  }

  lemma OldRowsFit(s: State, s': State)
    requires Records(s) && Persists(s, s')
    ensures forall i :: 0 <= i < |s.ledger| ==> RowFits(s', i)
  {
    forall i | 0 <= i < |s.ledger| ensures RowFits(s', i) {
      assert RowFits(s, i);
      assert s'.ledger[i] == s.ledger[i];
      var d := s.ledger[i].says;
      if IsTerminalType(d.rtype) && d.parents != [] {
        assert s'.ledger[d.parents[0]] == s.ledger[d.parents[0]];
      }
    }
  }

  lemma AssignmentsStay(l: Rows, l': Rows, t: TaskId)
    requires l <= l'
    requires exists i :: 0 <= i < |l| && IsAssignment(l[i], t)
    ensures exists i :: 0 <= i < |l'| && IsAssignment(l'[i], t)
  {
    var i :| 0 <= i < |l| && IsAssignment(l[i], t);
    assert l'[i] == l[i];
  }

  lemma CallsFit(s: State, s': State)
    requires Pending(s) && Persists(s, s')
    ensures Pending(s')
  {
    forall k | k in s'.calls ensures CallFits(s', s'.calls[k]) {
      assert CallFits(s, s.calls[k]);
      assert s'.ledger[s.calls[k].obligation] == s.ledger[s.calls[k].obligation];
    }
  }

  /** The ledger keeps its order and its assignments as it grows. */
  lemma RecordsAfter(s: State, s': State)
    requires Records(s) && Persists(s, s')
    requires forall i :: |s.ledger| <= i < |s'.ledger| ==> RowFits(s', i)
    requires forall t :: t in s'.tasks && t !in s.tasks ==>
               exists i :: 0 <= i < |s'.ledger| && IsAssignment(s'.ledger[i], t)
    ensures Records(s')
  {
    OldRowsFit(s, s');
    forall t | t in s.tasks ensures exists i :: 0 <= i < |s'.ledger| && IsAssignment(s'.ledger[i], t) {
      AssignmentsStay(s.ledger, s'.ledger, t);
    }
  }

  /** A neutral receipt, as progress and result notices are. */
  predicate IsNotice(d: Statement) { Neutral(d.rtype) && !d.rtype.SystemAnomaly? }

  lemma NoticeHistory(l: Rows, m: Rows, t: TaskId)
    requires forall r :: r in m ==> IsNotice(r.says)
    ensures Replay(Of(l + m, t)) == Replay(Of(l, t))
    ensures Outcomes(Of(l + m, t)) == Outcomes(Of(l, t)) && Closes(Of(l + m, t)) == Closes(Of(l, t))
    ensures Count(Of(l + m, t), TaskRetryScheduled) == Count(Of(l, t), TaskRetryScheduled)
    ensures Count(Of(l + m, t), SystemAnomaly) == Count(Of(l, t), SystemAnomaly)
  {
    OfAppend(l, m, t);
    forall r | r in Of(m, t) ensures r in m { OfMember(m, t, r); }
    FoldNeutral(Of(l, t), Of(m, t));
  }

  lemma NoticeRecords(s: State, d: Statement)
    requires Records(s) && Tables(s) && IsNotice(d)
    requires d.task.Some? ==> d.task.value in s.tasks
    requires d.lease.Some? ==> d.lease.value < s.nextLease
    ensures Records(s.(ledger := s.ledger + Appended(s.ledger, d, s.now)))
    ensures Persists(s, s.(ledger := s.ledger + Appended(s.ledger, d, s.now)))
  {
    hide Stored;
    RecordsAfter(s, s.(ledger := s.ledger + Appended(s.ledger, d, s.now)));
  }

  /** Tracking, if no row changes. */
  lemma TracksEach(s: State, s': State)
    requires s'.tasks == s.tasks
    requires forall t :: t in s.tasks && SyncedTask(s, t) ==> SyncedTask(s', t)
    requires forall t :: t in s.tasks && LapsedTask(s, t) ==> LapsedTask(s', t)
    ensures Tracks(s, s')
  {
    hide SyncedTask, LapsedTask;
    forall loose: set<TaskId> | Synced(s, loose) ensures Synced(s', Still(s', loose)) {
      LapsedAreQueued(s, loose);
    }
  }

  lemma NoticeAccounts(s: State, m: Rows)
    requires forall r :: r in m ==> IsNotice(r.says)
    ensures Accounts(s) ==> Accounts(s.(ledger := s.ledger + m))
    ensures Tracks(s, s.(ledger := s.ledger + m))
  {
    hide Of, Replay, Outcomes, Closes, Count;
    var s' := s.(ledger := s.ledger + m);
    forall t | t in s.tasks
      ensures Accounted(s.tasks[t], Of(s.ledger, t)) ==> Accounted(s'.tasks[t], Of(s'.ledger, t))
      ensures SyncedTask(s, t) ==> SyncedTask(s', t)
      ensures LapsedTask(s, t) ==> LapsedTask(s', t)
    {
      NoticeHistory(s.ledger, m, t);
    }
    TracksEach(s, s');
  }

  /** Emitting a notice about an existing task keeps everything. */
  lemma NoticeKeeps(c: Config, s: State, d: Statement, v: Verdict)
    requires Inv(c, s) && IsNotice(d) && Emit(s.ledger, d, s.now, v).Some?
    requires d.task.Some? ==> d.task.value in s.tasks
    requires d.lease.Some? ==> d.lease.value < s.nextLease
    ensures Inv(c, s.(ledger := Emit(s.ledger, d, s.now, v).value))
    ensures Tracks(s, s.(ledger := Emit(s.ledger, d, s.now, v).value))
  {
    hide Records, Accounts, Tracks, Pending, Persists, LeaseMatchesStatus, LeasesInLifetime;
    NoticeRecords(s, d);
    NoticeAccounts(s, Appended(s.ledger, d, s.now));
    CallsFit(s, s.(ledger := s.ledger + Appended(s.ledger, d, s.now)));
  }

  // ---------------------------------------------------------------------------------------
  // Ending a lease
  // ---------------------------------------------------------------------------------------

  /** `d` is the transition receipt of an open task `t`, and `row` what that transition makes of
      the task: the shape shared by completing, failing, requeuing, canceling and expiring. */
  ghost predicate Exits(s: State, t: TaskId, row: Task, d: Statement) {
    && t in s.tasks && !IsTerminal(s.tasks[t].status)
    && d.task == Some(t) && EndsLease(d.rtype)
    && (d.lease.Some? ==> d.lease.value in s.leases && s.leases[d.lease.value].task == t)
    && (!IsTerminalType(d.rtype) ==> d.lease.Some?)
    && row.status == ReplayOne(UNKNOWN, d).status
    && row.maxAttempts == s.tasks[t].maxAttempts
    && row.attempt == s.tasks[t].attempt + (if d.rtype.TaskRetryScheduled? then 1 else 0)
    && row.attempt <= Max(0, row.maxAttempts - 1)
    && (IsTerminalType(d.rtype) ==>
          && |d.parents| == 1 && d.parents[0] < |s.ledger| && IsAssignment(s.ledger[d.parents[0]], t)
          && row.result.Some? && row.result.value.outcome == row.status)
    && (d.rtype.TaskCompleted? ==>
          && d.body.CompletedBody? && d.body.deliveryProof.None?
          && row.result.value.artifacts == d.body.artifacts)
  }

  function ExitState(s: State, t: TaskId, row: Task, d: Statement): State {
    s.(tasks := s.tasks[t := row], leases := s.leases - LeasesOn(s.leases, t),
       ledger := s.ledger + Appended(s.ledger, d, s.now))
  }

  lemma ExitTables(s: State, t: TaskId, row: Task, d: Statement)
    requires Tables(s) && Exits(s, t, row, d)
    ensures LeaseMatchesStatus(s.tasks[t := row], s.leases - LeasesOn(s.leases, t))
    ensures IdsIssued(ExitState(s, t, row, d))
  {
    var leases := s.leases - LeasesOn(s.leases, t);
    forall u | u in s.tasks && u != t && IsActive(s.tasks[u].status)
      ensures exists l :: l in leases && leases[l].task == u
    {
      var l :| l in s.leases && s.leases[l].task == u;
      assert l in leases;
    }
  }

  /** What one new transition receipt, with the anomaly that may follow it, does to a history. */
  lemma TransitionHistory(l: Rows, t: TaskId, d: Statement, now: Time)
    requires d.task == Some(t) && !Neutral(d.rtype) && !Stored(l, Stripped(d))
    ensures var h, h' := Of(l, t), Of(l + Appended(l, d, now), t);
            && Replay(h') == ReplayOne(Replay(h), d)
            && Outcomes(h') == Outcomes(h) + (if IsTerminalType(d.rtype) then [d.rtype] else [])
            && Closes(h') == Closes(h) + (if IsTerminalType(d.rtype) then Stripped(d).parents else [])
            && Count(h', TaskRetryScheduled) ==
                 Count(h, TaskRetryScheduled) + (if d.rtype.TaskRetryScheduled? then 1 else 0)
            && Count(h', SystemAnomaly) == Count(h, SystemAnomaly) + (if Locatable(d) then 0 else 1)
  {
    hide Of, Replay, Outcomes, Closes, Count, Stored;
    var m := Appended(l, d, now);
    OfExtend(l, m, t);
    var h := Of(l, t);
    FoldAppend(h, m[0]);
    if |m| == 2 {
      FoldAppend(h + [m[0]], m[1]);
      assert h + m == h + [m[0]] + [m[1]];
    } else {
      assert h + m == h + [m[0]];
    }
  }

  lemma ExitNewRows(s: State, t: TaskId, row: Task, d: Statement)
    requires IdsIssued(s) && Exits(s, t, row, d) && !Stored(s.ledger, Stripped(d))
    ensures forall i :: |s.ledger| <= i < |ExitState(s, t, row, d).ledger| ==> RowFits(ExitState(s, t, row, d), i)
  {
    var s' := ExitState(s, t, row, d);
    var n := |s.ledger|;
    assert s'.ledger[n].says == Stripped(d);
    assert IsTerminalType(d.rtype) ==> s'.ledger[d.parents[0]] == s.ledger[d.parents[0]];
    assert RowFits(s', n);
  }

  lemma ExitPersists(s: State, t: TaskId, row: Task, d: Statement)
    requires Tables(s) && Exits(s, t, row, d)
    ensures Persists(s, ExitState(s, t, row, d))
  {
  }

  lemma ExitRecords(s: State, t: TaskId, row: Task, d: Statement)
    requires Tables(s) && Records(s) && Accounts(s) && Exits(s, t, row, d)
    ensures Records(ExitState(s, t, row, d))
  {
    hide Stored, RowFits, Accounts, LeaseMatchesStatus, Persists;
    var s' := ExitState(s, t, row, d);
    ExitPersists(s, t, row, d);
    ExitIsNew(s, t, d);
    ExitNewRows(s, t, row, d);
    RecordsAfter(s, s');
  }

  lemma ExitAccounts(s: State, t: TaskId, row: Task, d: Statement)
    requires Records(s) && Accounts(s) && Exits(s, t, row, d)
    ensures Accounts(ExitState(s, t, row, d))
  {
    hide Stored, Records, Appended, Of, Replay, Outcomes, Closes, Count;
    var s' := ExitState(s, t, row, d);
    ExitIsNew(s, t, d);
    TransitionHistory(s.ledger, t, d, s.now);
    OfExtend(s.ledger, Appended(s.ledger, d, s.now), t);
    assert Accounted(s.tasks[t], Of(s.ledger, t));
    assert Accounted(row, Of(s'.ledger, t));
    forall u | u in s.tasks && u != t ensures Accounted(s'.tasks[u], Of(s'.ledger, u)) {
      assert Accounted(s.tasks[u], Of(s.ledger, u));
    }
  }

  lemma ExitTask(s: State, t: TaskId, row: Task, d: Statement)
    requires Records(s) && Accounts(s) && Exits(s, t, row, d) && (LapsedTask(s, t) || SyncedTask(s, t))
    ensures SyncedTask(ExitState(s, t, row, d), t)
    ensures LapsedTask(s, t) ==> !row.status.Queued?
  {
    hide Stored, Records, Appended, Of, Replay, Outcomes, Closes, Count, Accounts;
    ExitIsNew(s, t, d);
    TransitionHistory(s.ledger, t, d, s.now);
    assert d.lease.Some? ==> d.lease.value in LeasesOn(s.leases, t);
  }

  lemma ExitElsewhere(s: State, t: TaskId, row: Task, d: Statement)
    requires Exits(s, t, row, d)
    ensures Untouched(s, ExitState(s, t, row, d), t)
  {
    hide Stored, Appended, Of;
    OfExtend(s.ledger, Appended(s.ledger, d, s.now), t);
  }

  lemma ExitSynced(s: State, t: TaskId, row: Task, d: Statement, loose: set<TaskId>)
    requires Records(s) && Accounts(s) && Synced(s, loose) && Exits(s, t, row, d)
    ensures Synced(ExitState(s, t, row, d), Still(ExitState(s, t, row, d), loose))
  {
    hide Records, Accounts, SyncedTask, LapsedTask, Untouched, Appended;
    assert t in s.tasks;
    assert if t in loose then LapsedTask(s, t) else SyncedTask(s, t);
    ExitTask(s, t, row, d);
    ExitElsewhere(s, t, row, d);
    hide Exits, Synced;
    OthersTrack(s, ExitState(s, t, row, d), t, loose);
  }

  /** A task other than `t`, of which nothing has changed. */
  ghost predicate Untouched(s: State, s': State, t: TaskId) {
    && s'.tasks.Keys == s.tasks.Keys
    && forall u :: u in s.tasks && u != t ==>
         s'.tasks[u] == s.tasks[u] && Of(s'.ledger, u) == Of(s.ledger, u)
         && (forall l :: l in s.leases && s.leases[l].task == u ==> l in s'.leases && s'.leases[l] == s.leases[l])
         && (forall l :: l in s'.leases && s'.leases[l].task == u ==> l in s.leases && s.leases[l] == s'.leases[l])
  }

  lemma OthersTrack(s: State, s': State, t: TaskId, loose: set<TaskId>)
    requires Synced(s, loose) && Untouched(s, s', t) && t in s.tasks && SyncedTask(s', t)
    requires t in loose ==> !s'.tasks[t].status.Queued?
    ensures Synced(s', Still(s', loose))
  {
    hide Of, Replay;
    forall u | u in s'.tasks && u != t
      ensures if u in Still(s', loose) then LapsedTask(s', u) else SyncedTask(s', u)
    {
      assert if u in loose then LapsedTask(s, u) else SyncedTask(s, u);
      assert LeasesOn(s'.leases, u) == LeasesOn(s.leases, u);
    }
  }

  lemma ExitKeeps(c: Config, s: State, t: TaskId, row: Task, d: Statement)
    requires Inv(c, s) && Exits(s, t, row, d)
    ensures Inv(c, ExitState(s, t, row, d))
    ensures Tracks(s, ExitState(s, t, row, d))
  {
    hide Records, Accounts, Synced, LeaseMatchesStatus, Exits, Persists, Pending;
    ExitTables(s, t, row, d);
    ExitRecords(s, t, row, d);
    ExitAccounts(s, t, row, d);
    forall loose: set<TaskId> | Synced(s, loose)
      ensures Synced(ExitState(s, t, row, d), Still(ExitState(s, t, row, d), loose))
    {
      ExitSynced(s, t, row, d, loose);
    }
    ExitPersists(s, t, row, d);
    CallsFit(s, ExitState(s, t, row, d));
  }

  /** A committed unit of work is the exit followed by the notice. */
  lemma SettleParts(s: State, t: TaskId, row: Task, released: set<LeaseId>, d: Statement, v: Verdict,
                    extra: Option<Statement>, w: Verdict)
    requires s.leases - released == s.leases - LeasesOn(s.leases, t)
    requires Settle(s, t, row, released, d, v, extra, w).Some?
    ensures extra.None? ==> Settle(s, t, row, released, d, v, extra, w).value == ExitState(s, t, row, d)
    ensures extra.Some? ==>
              var s' := ExitState(s, t, row, d);
              var l := Emit(s'.ledger, extra.value, s'.now, w);
              l.Some? && Settle(s, t, row, released, d, v, extra, w).value == s'.(ledger := l.value)
  {
    hide Appended, Linked, Proceeds;
  }

  /** The whole unit of work: the exit and the notice that may follow it. */
  lemma SettleKeeps(c: Config, s: State, t: TaskId, row: Task, released: set<LeaseId>, d: Statement, v: Verdict,
                    extra: Option<Statement>, w: Verdict)
    requires Inv(c, s) && Exits(s, t, row, d)
    requires s.leases - released == s.leases - LeasesOn(s.leases, t)
    requires extra.Some? ==> IsNotice(extra.value) && extra.value.task == Some(t)
                             && (extra.value.lease.Some? ==> extra.value.lease.value < s.nextLease)
    requires Settle(s, t, row, released, d, v, extra, w).Some?
    ensures Inv(c, Settle(s, t, row, released, d, v, extra, w).value)
    ensures Tracks(s, Settle(s, t, row, released, d, v, extra, w).value)
  {
    hide Inv, Tracks, Emit, Settle, Exits, IsNotice;
    ExitKeeps(c, s, t, row, d);
    SettleParts(s, t, row, released, d, v, extra, w);
    if extra.Some? {
      NoticeKeeps(c, ExitState(s, t, row, d), extra.value, w);
      TracksOn(s, ExitState(s, t, row, d), Settle(s, t, row, released, d, v, extra, w).value);
    }
  }

  // ---------------------------------------------------------------------------------------
  // Taking up a task: acceptance and start
  // ---------------------------------------------------------------------------------------

  /** A task becomes LEASED or RUNNING under lease `l`, with one new receipt saying so. */
  ghost predicate Enters(s: State, s': State, t: TaskId, l: LeaseId, d: Statement) {
    && t in s.tasks && s.tasks[t].status in {Queued, Leased}
    && d.rtype in {TaskAccepted, TaskStarted} && d.task == Some(t) && d.lease == Some(l)
    && s'.ledger == s.ledger + [Receipt(|s.ledger|, s.now, d, true)]
    && t in s'.tasks && s'.tasks == s.tasks[t := s'.tasks[t]]
    && s'.tasks[t].status == ReplayOne(UNKNOWN, d).status
    && s'.tasks[t].attempt == s.tasks[t].attempt && s'.tasks[t].maxAttempts == s.tasks[t].maxAttempts
    && s'.now == s.now && s'.keys == s.keys && s'.calls == s.calls && s'.nextTask == s.nextTask
    && s.nextLease <= s'.nextLease && l < s'.nextLease
    && l in s'.leases && s'.leases[l].task == t && s'.leases == s.leases[l := s'.leases[l]]
    && (l in s.leases ==> s'.leases[l] == s.leases[l])
  }

  lemma EnterHistory(s: State, s': State, t: TaskId, l: LeaseId, d: Statement)
    requires Enters(s, s', t, l, d)
    ensures forall u :: u != t ==> Of(s'.ledger, u) == Of(s.ledger, u)
    ensures var h, h' := Of(s.ledger, t), Of(s'.ledger, t);
            && Replay(h') == ReplayOne(Replay(h), d)
            && Outcomes(h') == Outcomes(h) && Closes(h') == Closes(h)
            && Count(h', TaskRetryScheduled) == Count(h, TaskRetryScheduled)
            && Count(h', SystemAnomaly) == Count(h, SystemAnomaly)
  {
    hide Of, Replay, Outcomes, Closes, Count;
    var row := Receipt(|s.ledger|, s.now, d, true);
    OfExtend(s.ledger, [row], t);
    FoldAppend(Of(s.ledger, t), row);
  }

  lemma EnterAccounts(s: State, s': State, t: TaskId, l: LeaseId, d: Statement)
    requires Accounts(s) && Enters(s, s', t, l, d)
    ensures Accounts(s')
  {
    hide Of, Replay, Outcomes, Closes, Count;
    EnterHistory(s, s', t, l, d);
    forall u | u in s'.tasks ensures Accounted(s'.tasks[u], Of(s'.ledger, u)) {
      assert Accounted(s.tasks[u], Of(s.ledger, u));
    }
  }

  lemma EnterSynced(s: State, s': State, t: TaskId, l: LeaseId, d: Statement, loose: set<TaskId>)
    requires Synced(s, loose) && Enters(s, s', t, l, d)
    requires d.rtype.TaskAccepted? ==> l !in s.leases && d.from.id == s'.leases[l].worker
    requires d.rtype.TaskStarted? ==> l in s.leases && LeasesOn(s.leases, t) == {l}
    ensures Synced(s', Still(s', loose))
  {
    hide Of, Replay, Outcomes, Closes, Count;
    EnterHistory(s, s', t, l, d);
    assert if t in loose then LapsedTask(s, t) else SyncedTask(s, t);
    OthersTrack(s, s', t, loose);
  }

  lemma EnterPersists(s: State, s': State, t: TaskId, l: LeaseId, d: Statement)
    requires Tables(s) && Enters(s, s', t, l, d)
    requires l !in s.leases ==> s.nextLease <= l
    ensures Persists(s, s')
  {
  }

  lemma EnterRecords(s: State, s': State, t: TaskId, l: LeaseId, d: Statement)
    requires Records(s) && Enters(s, s', t, l, d) && Persists(s, s')
    ensures Records(s')
  {
    hide Persists;
    assert RowFits(s', |s.ledger|);
    RecordsAfter(s, s');
  }

  lemma OnlyLease(s: State, t: TaskId, l: LeaseId)
    requires Tables(s) && l in s.leases && s.leases[l].task == t
    ensures LeasesOn(s.leases, t) == {l}
  {
  }

  /** The part of the argument that starting and granting share. */
  lemma EnterKeeps(c: Config, s: State, s': State, t: TaskId, l: LeaseId, d: Statement)
    requires Inv(c, s) && Enters(s, s', t, l, d)
    requires l !in s.leases ==> s.nextLease <= l
    requires Tables(s') && Lifetimes(c, s')
    ensures Inv(c, s')
  {
    hide Records, Accounts, LeaseMatchesStatus, LeasesInLifetime, Persists, Pending, Enters;
    EnterPersists(s, s', t, l, d);
    EnterRecords(s, s', t, l, d);
    EnterAccounts(s, s', t, l, d);
    CallsFit(s, s');
  }

  lemma StartTables(s: State, t: TaskId, row: Task)
    requires LeaseMatchesStatus(s.tasks, s.leases)
    requires t in s.tasks && IsActive(s.tasks[t].status) && IsActive(row.status)
    ensures LeaseMatchesStatus(s.tasks[t := row], s.leases)
  {
  }

  lemma StartKeeps(c: Config, s: State, t: TaskId, l: LeaseId, w: WorkerId, trace: string, v: Verdict)
    requires Inv(c, s) && Validates(s, t, l, w) && t in s.tasks && s.tasks[t].status.Leased?
    requires MarkRunning(s, t, l, w, trace, v).Some?
    ensures Inv(c, MarkRunning(s, t, l, w, trace, v).value)
    ensures Tracks(s, MarkRunning(s, t, l, w, trace, v).value)
  {
    hide RowFits, Accounts, Synced, LeasesInLifetime, LeaseMatchesStatus, Stored, Pending;
    var s' := MarkRunning(s, t, l, w, trace, v).value;
    var d := FromHolder(s.ledger, TaskStarted, t, s.tasks[t], l, w, StartedBody(StartedAt(s, t)), trace);
    StartIsNew(s, d);
    assert s.leases - {} == s.leases;
    assert s.leases == s.leases[l := s.leases[l]];
    StartTables(s, t, s'.tasks[t]);
    EnterKeeps(c, s, s', t, l, d);
    OnlyLease(s, t, l);
    forall loose: set<TaskId> | Synced(s, loose) ensures Synced(s', Still(s', loose)) {
      EnterSynced(s, s', t, l, d, loose);
    }
  }

  lemma GrantTables(s: State, t: TaskId, row: Lease)
    requires Tables(s) && t in s.tasks && s.tasks[t].status.Queued? && row.task == t
    ensures LeaseMatchesStatus(s.tasks[t := s.tasks[t].(status := Leased)], s.leases[s.nextLease := row])
    ensures s.nextLease !in s.leases && LeasesOn(s.leases, t) == {}
  {
    var leases := s.leases[s.nextLease := row];
    forall u | u in s.tasks && (u == t || IsActive(s.tasks[u].status))
      ensures exists l :: l in leases && leases[l].task == u
    {
      if u == t {
        assert s.nextLease in leases && leases[s.nextLease].task == t;
      } else {
        var l :| l in s.leases && s.leases[l].task == u;
        assert l in leases && leases[l].task == u;
      }
    }
  }

  lemma NewLeaseInLifetime(c: Config, now: Time, t: TaskId, w: WorkerId, ttl: Option<int>)
    ensures InLifetime(c, NewLease(c, now, t, w, ttl))
  {
  }

  lemma GrantKeeps(c: Config, s: State, t: TaskId, w: WorkerId, caps: set<string>, ttl: Option<int>,
                   trace: string, v: Verdict)
    requires Inv(c, s) && t in s.tasks && s.tasks[t].status.Queued?
    requires Grant(c, s, t, w, caps, ttl, trace, v).Some?
    ensures Inv(c, Grant(c, s, t, w, caps, ttl, trace, v).value)
    ensures Tracks(s, Grant(c, s, t, w, caps, ttl, trace, v).value)
  {
    hide RowFits, Accounts, Synced, LeaseMatchesStatus, Stored, Pending, Obligation;
    var s' := Grant(c, s, t, w, caps, ttl, trace, v).value;
    var d := AcceptedReceipt(s.ledger, t, s.tasks[t], s.nextLease, w, caps, trace);
    var l := s.nextLease;
    FreshIsNew(s, d);
    GrantTables(s, t, s'.leases[l]);
    NewLeaseInLifetime(c, s.now, t, w, ttl);
    EnterKeeps(c, s, s', t, l, d);
    forall loose: set<TaskId> | Synced(s, loose) ensures Synced(s', Still(s', loose)) {
      EnterSynced(s, s', t, l, d, loose);
    }
  }

  // ---------------------------------------------------------------------------------------
  // Creating, renewing, reconciling
  // ---------------------------------------------------------------------------------------

  /** What an assignment does to its task's history: it makes the task known and no more. */
  lemma AssignmentHistory(l: Rows, t: TaskId, d: Statement, now: Time)
    requires d.rtype.TaskAssigned? && d.task == Some(t)
    ensures forall u :: u != t ==> Of(l + Appended(l, d, now), u) == Of(l, u)
    ensures var h, h' := Of(l, t), Of(l + Appended(l, d, now), t);
            && (Replay(h').known <==> Replay(h).known || Appended(l, d, now) != [])
            && Replay(h').(known := true) == Replay(h).(known := true)
            && Outcomes(h') == Outcomes(h) && Closes(h') == Closes(h)
            && Count(h', TaskRetryScheduled) == Count(h, TaskRetryScheduled)
            && Count(h', SystemAnomaly) == Count(h, SystemAnomaly)
  {
    hide Of, Replay, Outcomes, Count, Stored;
    var m := Appended(l, d, now);
    OfExtend(l, m, t);
    if m == [] {
      assert l + m == l;
      assert Of(l, t) + m == Of(l, t);
    } else {
      FoldAppend(Of(l, t), m[0]);
    }
  }

  lemma RepeatedAssignmentKeeps(c: Config, s: State, d: Statement, t: TaskId)
    requires Inv(c, s) && t in s.tasks && d.rtype.TaskAssigned? && d.task == Some(t) && d.lease.None?
    ensures Inv(c, s.(ledger := s.ledger + Appended(s.ledger, d, s.now)))
    ensures Tracks(s, s.(ledger := s.ledger + Appended(s.ledger, d, s.now)))
  {
    hide Stored, Records, Accounts, Tracks, Pending, LeasesInLifetime, LeaseMatchesStatus;
    RepeatedAssignmentRecords(s, d, t);
    RepeatedAssignmentAccounts(s, d, t);
  }

  lemma RepeatedAssignmentRecords(s: State, d: Statement, t: TaskId)
    requires Tables(s) && Records(s) && Pending(s)
    requires t in s.tasks && d.rtype.TaskAssigned? && d.task == Some(t) && d.lease.None?
    ensures Records(s.(ledger := s.ledger + Appended(s.ledger, d, s.now)))
    ensures Pending(s.(ledger := s.ledger + Appended(s.ledger, d, s.now)))
  {
    hide Stored;
    var s' := s.(ledger := s.ledger + Appended(s.ledger, d, s.now));
    RecordsAfter(s, s');
    CallsFit(s, s');
  }

  lemma RepeatedAssignmentAccounts(s: State, d: Statement, t: TaskId)
    requires Accounts(s) && t in s.tasks && d.rtype.TaskAssigned? && d.task == Some(t)
    ensures Accounts(s.(ledger := s.ledger + Appended(s.ledger, d, s.now)))
    ensures Tracks(s, s.(ledger := s.ledger + Appended(s.ledger, d, s.now)))
  {
    hide Stored, Appended, Of, Replay, Outcomes, Closes, Count;
    var s' := s.(ledger := s.ledger + Appended(s.ledger, d, s.now));
    AssignmentHistory(s.ledger, t, d, s.now);
    forall u | u in s.tasks
      ensures Accounted(s'.tasks[u], Of(s'.ledger, u))
      ensures SyncedTask(s, u) ==> SyncedTask(s', u)
      ensures LapsedTask(s, u) ==> LapsedTask(s', u)
    {
      assert Accounted(s.tasks[u], Of(s.ledger, u));
    }
    TracksEach(s, s');
  }

  /** Insertion of task row, index entry and first assignment. */
  ghost predicate Inserts(s: State, s': State, row: Task, d: Statement, key: Option<string>) {
    var t := s.nextTask;
    && d.rtype.TaskAssigned? && d.task == Some(t) && d.lease.None?
    && row.status.Queued? && row.attempt == 0 && row.result.None?
    && s'.tasks == s.tasks[t := row] && s'.nextTask == t + 1
    && s'.ledger == s.ledger + Appended(s.ledger, d, s.now)
    && s'.keys == (if key.Some? then s.keys[key.value := t] else s.keys)
    && s'.leases == s.leases && s'.calls == s.calls && s'.now == s.now && s'.nextLease == s.nextLease
  }

  lemma InsertTables(s: State, s': State, row: Task, d: Statement, key: Option<string>)
    requires Tables(s) && Inserts(s, s', row, d, key)
    ensures Tables(s')
  {
  }

  lemma InsertPersists(s: State, s': State, row: Task, d: Statement, key: Option<string>)
    requires Tables(s) && Inserts(s, s', row, d, key)
    ensures Persists(s, s')
  {
  }

  lemma InsertRecords(s: State, s': State, row: Task, d: Statement, key: Option<string>)
    requires Records(s) && Inserts(s, s', row, d, key) && Persists(s, s') && !Stored(s.ledger, d)
    ensures Records(s')
  {
    hide Stored, Persists;
    assert IsAssignment(s'.ledger[|s.ledger|], s.nextTask);
    assert RowFits(s', |s.ledger|);
    RecordsAfter(s, s');
  }

  lemma NothingAboutNewTask(s: State)
    requires Tables(s) && Records(s)
    ensures Of(s.ledger, s.nextTask) == []
  {
    forall r | r in s.ledger ensures r.says.task != Some(s.nextTask) {
      var i :| 0 <= i < |s.ledger| && s.ledger[i] == r;
      assert RowFits(s, i);
    }
    OfNone(s.ledger, s.nextTask);
  }

  lemma InsertAccounts(s: State, s': State, row: Task, d: Statement, key: Option<string>)
    requires Of(s.ledger, s.nextTask) == [] && !Stored(s.ledger, d)
    requires LeasesOn(s.leases, s.nextTask) == {} && s.nextTask !in s.tasks
    requires Accounts(s) && Inserts(s, s', row, d, key)
    ensures Accounts(s')
  {
    hide Stored, Of, Replay, Outcomes, Closes, Count;
    EmptyHistory();
    AssignmentHistory(s.ledger, s.nextTask, d, s.now);
    forall u | u in s.tasks ensures Accounted(s'.tasks[u], Of(s'.ledger, u)) {
      assert Accounted(s.tasks[u], Of(s.ledger, u));
    }
    assert Accounted(row, Of(s'.ledger, s.nextTask));
  }

  lemma InsertSynced(s: State, s': State, row: Task, d: Statement, key: Option<string>, loose: set<TaskId>)
    requires Of(s.ledger, s.nextTask) == [] && !Stored(s.ledger, d)
    requires LeasesOn(s.leases, s.nextTask) == {} && s.nextTask !in s.tasks
    requires Synced(s, loose) && Inserts(s, s', row, d, key)
    ensures Synced(s', Still(s', loose))
  {
    hide Stored, Of, Replay, Outcomes, Closes, Count;
    EmptyHistory();
    AssignmentHistory(s.ledger, s.nextTask, d, s.now);
    forall u | u in s.tasks ensures if u in Still(s', loose) then LapsedTask(s', u) else SyncedTask(s', u) {
      assert if u in loose then LapsedTask(s, u) else SyncedTask(s, u);
    }
    assert SyncedTask(s', s.nextTask);
  }

  lemma EmptyHistory()
    ensures Replay([]) == UNKNOWN && Outcomes([]) == [] && Closes([]) == []
    ensures Count([], TaskRetryScheduled) == Count([], SystemAnomaly) == 0
  {
  }

  lemma InsertKeeps(c: Config, s: State, s': State, row: Task, d: Statement, key: Option<string>)
    requires Inv(c, s) && Inserts(s, s', row, d, key)
    ensures Inv(c, s')
    ensures Tracks(s, s')
  {
    InsertTables(s, s', row, d, key);
    InsertPersists(s, s', row, d, key);
    hide Stored, Synced, LeasesInLifetime, Accounts, Records, Pending, Persists;
    FreshIsNew(s, d);
    NothingAboutNewTask(s);
    InsertRecords(s, s', row, d, key);
    InsertAccounts(s, s', row, d, key);
    forall loose: set<TaskId> | Synced(s, loose) ensures Synced(s', Still(s', loose)) {
      InsertSynced(s, s', row, d, key, loose);
    }
    CallsFit(s, s');
  }

  lemma CreateKeeps(c: Config, s: State, r: NewTask, v: Verdict)
    requires Inv(c, s) && CreateTask(c, s, r, v).reply.Ok?
    ensures Inv(c, CreateTask(c, s, r, v).state)
    ensures Tracks(s, CreateTask(c, s, r, v).state)
  {
    hide Stored, Tracks, LeasesInLifetime, Accounts, Records, LeaseMatchesStatus, Pending;
    var s' := CreateTask(c, s, r, v).state;
    if r.key.Some? && r.key.value in s.keys && s.keys[r.key.value] in s.tasks {
      var t := s.keys[r.key.value];
      RepeatedAssignmentKeeps(c, s, AssignedReceipt(r, t, s.tasks[t]), t);
    } else {
      var row := NewRow(c, s.now, r);
      var d := AssignedReceipt(r, s.nextTask, row);
      InsertKeeps(c, s, s', row, d, r.key);
    }
  }

  lemma RenewTables(s: State, l: LeaseId, row: Lease)
    requires Tables(s) && l in s.leases && row.task == s.leases[l].task && row.worker == s.leases[l].worker
    ensures Tables(s.(leases := s.leases[l := row])) && Persists(s, s.(leases := s.leases[l := row]))
  {
    var s' := s.(leases := s.leases[l := row]);
    forall t | t in s.tasks && IsActive(s.tasks[t].status)
      ensures exists m :: m in s'.leases && s'.leases[m].task == t
    {
      var m :| m in s.leases && s.leases[m].task == t;
      assert m in s'.leases;
    }
  }

  lemma RenewSynced(s: State, l: LeaseId, row: Lease)
    requires l in s.leases && row.task == s.leases[l].task && row.worker == s.leases[l].worker
    ensures Tracks(s, s.(leases := s.leases[l := row]))
  {
    hide Of, Replay;
    var s' := s.(leases := s.leases[l := row]);
    forall u | u in s.tasks
      ensures SyncedTask(s, u) ==> SyncedTask(s', u)
      ensures LapsedTask(s, u) ==> LapsedTask(s', u)
    {
      assert LeasesOn(s'.leases, u) == LeasesOn(s.leases, u);
    }
    TracksEach(s, s');
  }

  lemma RenewKeeps(c: Config, s: State, t: TaskId, l: LeaseId, w: WorkerId, extend: Option<int>)
    requires Inv(c, s) && RenewLease(c, s, t, l, w, extend).reply.Ok?
    ensures Inv(c, RenewLease(c, s, t, l, w, extend).state)
    ensures Tracks(s, RenewLease(c, s, t, l, w, extend).state)
  {
    hide Records, Tracks, Pending, Persists, LeaseMatchesStatus;
    var s' := RenewLease(c, s, t, l, w, extend).state;
    RenewTables(s, l, s'.leases[l]);
    RenewSynced(s, l, s'.leases[l]);
    RenewedInLifetime(c, s, t, l, w, extend);
    RecordsAfter(s, s');
    CallsFit(s, s');
  }

  lemma RenewedInLifetime(c: Config, s: State, t: TaskId, l: LeaseId, w: WorkerId, extend: Option<int>)
    requires Lifetimes(c, s) && RenewLease(c, s, t, l, w, extend).reply.Ok?
    ensures Lifetimes(c, RenewLease(c, s, t, l, w, extend).state)
  {
    var row := RenewLease(c, s, t, l, w, extend).state.leases[l];
    assert (s.now - row.acquiredAt) / SECOND < c.maxLeaseLifetime;
  }

  lemma ReconcileTables(s: State, w: WorkerId, owed: set<TaskId>)
    requires Tables(s)
    ensures Tables(Reconcile(s, w, owed))
  {
    var s' := Reconcile(s, w, owed);
    var freed := TasksOf(s.leases, Stale(s, w, owed));
    forall l | l in s'.leases ensures s'.leases[l].task !in freed {}
    forall t | t in s'.tasks && IsActive(s'.tasks[t].status)
      ensures exists l :: l in s'.leases && s'.leases[l].task == t
    {
      var l :| l in s.leases && s.leases[l].task == t;
      assert l in s'.leases;
    }
  }

  lemma ReconcilePersists(s: State, w: WorkerId, owed: set<TaskId>)
    requires Tables(s)
    ensures Persists(s, Reconcile(s, w, owed))
  {
    var s' := Reconcile(s, w, owed);
    forall l | l in s'.leases ensures LeasePersists(s, s', l) {
      assert s.leases[l].task !in TasksOf(s.leases, Stale(s, w, owed));
    }
  }

  lemma ReconcileAccounts(s: State, w: WorkerId, owed: set<TaskId>)
    requires Accounts(s)
    ensures Accounts(Reconcile(s, w, owed))
  {
    hide Of, Outcomes, Closes, Count;
    var s' := Reconcile(s, w, owed);
    forall t | t in s'.tasks ensures Accounted(s'.tasks[t], Of(s'.ledger, t)) {
      assert Accounted(s.tasks[t], Of(s.ledger, t));
    }
  }

  lemma ReconcileKeeps(c: Config, s: State, w: WorkerId, owed: set<TaskId>)
    requires Inv(c, s)
    ensures Inv(c, Reconcile(s, w, owed))
  {
    hide Records, Accounts, Pending, Persists, LeaseMatchesStatus;
    ReconcileTables(s, w, owed);
    ReconcilePersists(s, w, owed);
    ReconcileAccounts(s, w, owed);
    RecordsAfter(s, Reconcile(s, w, owed));
    CallsFit(s, Reconcile(s, w, owed));
  }

  // ---------------------------------------------------------------------------------------
  // Every step
  // ---------------------------------------------------------------------------------------

  lemma CancelKeeps(c: Config, s: State, t: TaskId, actor: Principal, reason: string, authorized: bool,
                    trace: string, v: Verdict, w: Verdict)
    requires Inv(c, s)
    ensures Inv(c, CancelTask(s, t, actor, reason, authorized, trace, v, w).state)
    ensures Tracks(s, CancelTask(s, t, actor, reason, authorized, trace, v, w).state)
  {
    hide Records, Tracks, Pending, LeaseMatchesStatus, LeasesInLifetime, Settle, Obligation, Of, Count, Outcomes,
         Closes, Replay;
    TracksSelf(s);
    if CancelTask(s, t, actor, reason, authorized, trace, v, w).reply.Ok? {
      var o := Obligation(s.ledger, t, s.tasks[t].owner).value;
      var owner := s.ledger[o].says.to;
      var row := Finished(s.tasks[t], Canceled, None, reason, s.now);
      var d := Statement(TaskCanceled, actor, owner, Some(t), None, [o], CanceledBody(actor, reason, s.now), trace);
      assert Accounted(s.tasks[t], Of(s.ledger, t));
      SettleKeeps(c, s, t, row, LeasesOn(s.leases, t), d, v, Some(ResultReady(t, row, owner, o, trace)), w);
    }
  }

  /** A lease that validates is its task's only one, and its task is not finished. */
  lemma Holder(s: State, t: TaskId, l: LeaseId, w: WorkerId)
    requires Tables(s) && Validates(s, t, l, w)
    ensures t in s.tasks && IsActive(s.tasks[t].status) && LeasesOn(s.leases, t) == {l} && l < s.nextLease
  {
  }

  lemma CompleteKeeps(c: Config, s: State, k: Call, trace: string, v: Verdict, w: Verdict)
    requires Inv(c, s) && k.CompleteCall? && CallFits(s, k)
    ensures Inv(c, Complete(s, k, trace, v, w).state)
    ensures Tracks(s, Complete(s, k, trace, v, w).state)
  {
    hide Records, Tracks, Pending, LeaseMatchesStatus, LeasesInLifetime, Settle, Obligation, Of, Count, Outcomes,
         Closes, Replay;
    TracksSelf(s);
    if Complete(s, k, trace, v, w).reply.Ok? {
      var t := k.task;
      Holder(s, t, k.lease, k.worker);
      var row := Finished(s.tasks[t], Succeeded, k.artifacts, k.payload, s.now);
      assert Accounted(s.tasks[t], Of(s.ledger, t));
      SettleKeeps(c, s, t, row, {k.lease}, CompletedReceipt(k, trace), v,
                  Some(ResultReady(t, row, k.owner, k.obligation, trace)), w);
    }
  }

  /** Requeuing stays within the attempts because the decision made before the lock still holds. */
  lemma RequeueKeeps(c: Config, s: State, k: Call, trace: string, v: Verdict, w: Verdict)
    requires Inv(c, s) && k.FailCall? && k.requeue && CallFits(s, k) && Fail(c, s, k, trace, v, w).reply.Ok?
    ensures Inv(c, Fail(c, s, k, trace, v, w).state)
    ensures Tracks(s, Fail(c, s, k, trace, v, w).state)
  {
    hide Records, Tracks, Pending, LeaseMatchesStatus, LeasesInLifetime, Settle, Obligation, Of, Count, Outcomes,
         Closes, Replay;
    var t := k.task;
    Holder(s, t, k.lease, k.worker);
    assert Accounted(s.tasks[t], Of(s.ledger, t));
    var row := RequeuedWithBackoff(c, s.tasks[t], s.now);
    SettleKeeps(c, s, t, row, {k.lease}, RetryReceipt(k, row, trace), v, None, w);
  }

  lemma FailForGoodKeeps(c: Config, s: State, k: Call, trace: string, v: Verdict, w: Verdict)
    requires Inv(c, s) && k.FailCall? && !k.requeue && CallFits(s, k) && Fail(c, s, k, trace, v, w).reply.Ok?
    ensures Inv(c, Fail(c, s, k, trace, v, w).state)
    ensures Tracks(s, Fail(c, s, k, trace, v, w).state)
  {
    hide Records, Tracks, Pending, LeaseMatchesStatus, LeasesInLifetime, Settle, Obligation, Of, Count, Outcomes,
         Closes, Replay;
    var t := k.task;
    Holder(s, t, k.lease, k.worker);
    assert Accounted(s.tasks[t], Of(s.ledger, t));
    var row := Finished(s.tasks[t], Failed, None, k.error, s.now);
    SettleKeeps(c, s, t, row, {k.lease}, FailedReceipt(k, trace), v,
                Some(ResultReady(t, row, k.owner, k.obligation, trace)), w);
  }

  lemma FailKeeps(c: Config, s: State, k: Call, trace: string, v: Verdict, w: Verdict)
    requires Inv(c, s) && k.FailCall? && CallFits(s, k)
    ensures Inv(c, Fail(c, s, k, trace, v, w).state)
    ensures Tracks(s, Fail(c, s, k, trace, v, w).state)
  {
    hide Inv, Tracks, CallFits, Settle, FailedReceipt, RetryReceipt, ResultReady, Finished;
    TracksSelf(s);
    if Fail(c, s, k, trace, v, w).reply.Ok? {
      if k.requeue {
        RequeueKeeps(c, s, k, trace, v, w);
      } else {
        FailForGoodKeeps(c, s, k, trace, v, w);
      }
    }
  }

  lemma ExpireKeeps(c: Config, s: State, l: LeaseId, jitter: nat, trace: string, v: Verdict, w: Verdict)
    requires Inv(c, s)
    ensures Inv(c, ExpireLease(c, s, l, jitter, trace, v, w).state)
    ensures Tracks(s, ExpireLease(c, s, l, jitter, trace, v, w).state)
  {
    hide Records, Tracks, Pending, LeaseMatchesStatus, LeasesInLifetime, Settle, Obligation, Of, Count, Outcomes,
         Closes, Replay;
    TracksSelf(s);
    if ExpireLease(c, s, l, jitter, trace, v, w).reply.Ok? {
      var t := s.leases[l].task;
      var row := s.tasks[t];
      OnlyLease(s, t, l);
      assert Accounted(row, Of(s.ledger, t));
      SettleKeeps(c, s, t, RequeuedOnExpiry(row, s.now, jitter), {l},
                  ExpiredReceipt(s.ledger, t, row, l, s.leases[l], trace), v,
                  Escalation(c, s.ledger, t, row, l, s.leases[l], trace), w);
    }
  }

  lemma SyncedFrame(s: State, s': State)
    requires s'.tasks == s.tasks && s'.leases == s.leases && s'.ledger == s.ledger
    ensures Tracks(s, s')
  {
    hide Of, Replay;
    TracksEach(s, s');
  }

  /** Forgetting a pending call keeps everything. */
  lemma ForgetKeeps(c: Config, s: State, k: CallId)
    requires Inv(c, s)
    ensures Inv(c, s.(calls := s.calls - {k}))
    ensures Tracks(s, s.(calls := s.calls - {k}))
  {
    hide Accounted, Replay, Of, LeaseMatchesStatus, LeasesInLifetime;
    var s' := s.(calls := s.calls - {k});
    forall i | 0 <= i < |s.ledger| ensures RowFits(s', i) { assert RowFits(s, i); }
    forall j | j in s'.calls ensures CallFits(s', s'.calls[j]) { assert CallFits(s, s.calls[j]); }
    SyncedFrame(s, s');
  }

  lemma PendingFits(c: Config, s: State, k: CallId)
    requires Inv(c, s) && k in s.calls
    ensures CallFits(s, s.calls[k])
  {
    hide Tables, Records, Accounts, Lifetimes;
  }

  lemma FinishKeeps(c: Config, s: State, k: CallId, trace: string, v: Verdict, w: Verdict)
    requires Inv(c, s)
    ensures Inv(c, Finish(c, s, k, trace, v, w).state)
    ensures Tracks(s, Finish(c, s, k, trace, v, w).state)
  {
    hide Inv, Tracks, Fail, Complete, CallFits;
    if k in s.calls {
      PendingFits(c, s, k);
      var mid;
      if s.calls[k].CompleteCall? {
        CompleteKeeps(c, s, s.calls[k], trace, v, w);
        CompleteCalls(s, s.calls[k], trace, v, w);
        mid := Complete(s, s.calls[k], trace, v, w).state;
      } else {
        FailKeeps(c, s, s.calls[k], trace, v, w);
        FailCalls(c, s, s.calls[k], trace, v, w);
        mid := Fail(c, s, s.calls[k], trace, v, w).state;
      }
      ForgetKeeps(c, mid, k);
      TracksOn(s, mid, Finish(c, s, k, trace, v, w).state);
    } else {
      TracksSelf(s);
    }
  }

  lemma CompleteCalls(s: State, k: Call, trace: string, v: Verdict, w: Verdict)
    requires k.CompleteCall?
    ensures Complete(s, k, trace, v, w).state.calls == s.calls
  {
    hide Settle, CompletedReceipt, ResultReady, Finished;
  }

  lemma FailCalls(c: Config, s: State, k: Call, trace: string, v: Verdict, w: Verdict)
    requires k.FailCall?
    ensures Fail(c, s, k, trace, v, w).state.calls == s.calls
  {
    hide Settle, FailedReceipt, RetryReceipt, ResultReady, Finished, RequeuedWithBackoff;
  }

  /** Remembering a call whose pre-read has just been made keeps everything. */
  lemma RememberKeeps(c: Config, s: State, k: CallId, call: Call)
    requires Inv(c, s) && CallFits(s, call)
    ensures Inv(c, s.(calls := s.calls[k := call]))
    ensures Tracks(s, s.(calls := s.calls[k := call]))
  {
    hide Accounted, SyncedTask, LeaseMatchesStatus, LeasesInLifetime, IsAssignment, ClosesAtMostOwn;
    var s' := s.(calls := s.calls[k := call]);
    forall i | 0 <= i < |s.ledger| ensures RowFits(s', i) { assert RowFits(s, i); }
    forall j | j in s'.calls ensures CallFits(s', s'.calls[j]) {
      if j != k { assert CallFits(s, s.calls[j]); }
    }
    SyncedFrame(s, s');
  }

  lemma BeginCompleteKeeps(c: Config, s: State, k: CallId, t: TaskId, l: LeaseId, w: WorkerId, payload: string,
                           artifacts: Option<Artifacts>)
    requires Inv(c, s)
    ensures Inv(c, BeginComplete(s, k, t, l, w, payload, artifacts).state)
    ensures Tracks(s, BeginComplete(s, k, t, l, w, payload, artifacts).state)
  {
    hide Records, Accounts, Tracks, Pending, LeaseMatchesStatus, LeasesInLifetime;
    TracksSelf(s);
    var r := BeginComplete(s, k, t, l, w, payload, artifacts);
    if r.reply.Ok? {
      Holder(s, t, l, w);
      RememberKeeps(c, s, k, r.state.calls[k]);
    }
  }

  lemma BeginFailKeeps(c: Config, s: State, k: CallId, t: TaskId, l: LeaseId, w: WorkerId, error: string,
                       retryable: bool)
    requires Inv(c, s)
    ensures Inv(c, BeginFail(s, k, t, l, w, error, retryable).state)
    ensures Tracks(s, BeginFail(s, k, t, l, w, error, retryable).state)
  {
    hide Records, Accounts, Tracks, Pending, LeaseMatchesStatus, LeasesInLifetime;
    TracksSelf(s);
    var r := BeginFail(s, k, t, l, w, error, retryable);
    if r.reply.Ok? {
      Holder(s, t, l, w);
      RememberKeeps(c, s, k, r.state.calls[k]);
    }
  }

  lemma StartTaskKeeps(c: Config, s: State, t: TaskId, l: LeaseId, w: WorkerId, trace: string, v: Verdict)
    requires Inv(c, s)
    ensures Inv(c, StartTask(s, t, l, w, trace, v).state)
    ensures Tracks(s, StartTask(s, t, l, w, trace, v).state)
  {
    hide Inv, Tracks, MarkRunning;
    TracksSelf(s);
    if StartTask(s, t, l, w, trace, v).state != s {
      StartKeeps(c, s, t, l, w, trace, v);
    }
  }

  lemma ProgressKeeps(c: Config, s: State, t: TaskId, l: LeaseId, w: WorkerId, data: string, trace: string,
                      v: Verdict, v': Verdict)
    requires Inv(c, s)
    ensures Inv(c, ReportProgress(s, t, l, w, data, trace, v, v').state)
    ensures Tracks(s, ReportProgress(s, t, l, w, data, trace, v, v').state)
  {
    hide LeaseMatchesStatus, LeasesInLifetime, Records, Accounts, Pending, Tracks, Emit, Settle, Obligation;
    TracksSelf(s);
    var r := ReportProgress(s, t, l, w, data, trace, v, v');
    if r.reply.Ok? {
      Holder(s, t, l, w);
      var leased := s.tasks[t].status.Leased?;
      if leased {
        StartKeeps(c, s, t, l, w, trace, v);
      }
      var mid := if leased then MarkRunning(s, t, l, w, trace, v).value else s;
      NoticeKeeps(c, mid, FromHolder(s.ledger, TaskProgress, t, s.tasks[t], l, w, ProgressBody(data), trace), v');
      TracksOn(s, mid, r.state);
    }
  }

  /** A claim touches no lease but its own new ones. */
  lemma {:induction false} LeasesElsewhere(c: Config, now: Time, leases: map<LeaseId, Lease>, first: LeaseId,
                                           ts: seq<TaskId>, w: WorkerId, ttl: Option<int>)
    ensures var ls := ClaimedLeases(c, now, leases, first, ts, w, ttl);
            && (forall l :: l in ls && !(first <= l < first + |ts|) ==> l in leases && ls[l] == leases[l])
            && (forall l :: l in leases && !(first <= l < first + |ts|) ==> l in ls)
  {
    hide NewLease;
    if ts == [] {
    } else {
      LeasesElsewhere(c, now, leases, first, ts[..|ts| - 1], w, ttl);
    }
  }

  lemma {:induction false} AcceptedGrows(l: Rows, now: Time, tasks: map<TaskId, Task>, first: LeaseId, ts: seq<TaskId>,
                                         w: WorkerId, caps: set<string>, trace: string, vs: seq<Verdict>)
    requires forall t :: t in ts ==> t in tasks
    requires Accepted(l, now, tasks, first, ts, w, caps, trace, vs).Some?
    ensures l <= Accepted(l, now, tasks, first, ts, w, caps, trace, vs).value
  {
    hide AcceptedReceipt, Appended, Linked, Proceeds;
    if ts == [] {
    } else {
      AcceptedGrows(l, now, tasks, first, ts[..|ts| - 1], w, caps, trace, vs);
    }
  }

  /** Granting several tasks leaves every other task alone, and every older lease. */
  lemma GrantAllFrame(c: Config, s: State, ts: seq<TaskId>, w: WorkerId, caps: set<string>,
                      ttl: Option<int>, trace: string, vs: seq<Verdict>)
    requires forall t :: t in ts ==> t in s.tasks
    requires GrantAll(c, s, ts, w, caps, ttl, trace, vs).Some?
    ensures var s' := GrantAll(c, s, ts, w, caps, ttl, trace, vs).value;
            && (forall t :: t in s.tasks && t !in ts ==> s'.tasks[t] == s.tasks[t])
            && (forall t :: t in ts ==> s'.tasks[t] == s.tasks[t].(status := Leased))
            && s' == s.(tasks := s'.tasks, leases := s'.leases, ledger := s'.ledger, nextLease := s.nextLease + |ts|)
            && s.ledger <= s'.ledger
            && (forall l :: l in s'.leases && l < s.nextLease ==> l in s.leases && s'.leases[l] == s.leases[l])
  {
    hide GrantAll, Accepted, ClaimedLeases;
    ClaimThenAccept(c, s, ts, w, caps, ttl, trace, vs);
    AcceptedGrows(s.ledger, s.now, s.tasks, s.nextLease, ts, w, caps, trace, vs);
    LeasesElsewhere(c, s.now, s.leases, s.nextLease, ts, w, ttl);
  }

  /** Granting several queued tasks keeps the invariant. */
  lemma {:induction false} GrantAllKeeps(c: Config, s: State, ts: seq<TaskId>, w: WorkerId, caps: set<string>,
                                         ttl: Option<int>, trace: string, vs: seq<Verdict>)
    requires Inv(c, s)
    requires forall t :: t in ts ==> t in s.tasks && s.tasks[t].status.Queued?
    requires forall i, j :: 0 <= i < j < |ts| ==> ts[i] != ts[j]
    requires GrantAll(c, s, ts, w, caps, ttl, trace, vs).Some?
    ensures var s' := GrantAll(c, s, ts, w, caps, ttl, trace, vs).value;
            && Inv(c, s') && Tracks(s, s')
            && (forall t :: t in s.tasks && t !in ts ==> s'.tasks[t] == s.tasks[t])
            && (forall t :: t in ts ==> s'.tasks[t] == s.tasks[t].(status := Leased))
            && s' == s.(tasks := s'.tasks, leases := s'.leases, ledger := s'.ledger, nextLease := s.nextLease + |ts|)
            && s.ledger <= s'.ledger
            && (forall l :: l in s'.leases && l < s.nextLease ==> l in s.leases && s'.leases[l] == s.leases[l])
  {
    hide Inv, Tracks, Grant, VerdictAt;
    GrantAllFrame(c, s, ts, w, caps, ttl, trace, vs);
    if ts == [] {
      TracksSelf(s);
    } else {
      var n := |ts| - 1;
      GrantAllKeeps(c, s, ts[..n], w, caps, ttl, trace, vs);
      var mid := GrantAll(c, s, ts[..n], w, caps, ttl, trace, vs).value;
      assert ts[n] !in ts[..n];
      GrantKeeps(c, mid, ts[n], w, caps, ttl, trace, VerdictAt(vs, n));
      TracksOn(s, mid, GrantAll(c, s, ts, w, caps, ttl, trace, vs).value);
    }
  }

  lemma LeaseNextKeeps(c: Config, s: State, w: WorkerId, caps: set<string>, types: set<string>, max: int,
                       ttl: Option<int>, sel: seq<TaskId>, trace: string, vs: seq<Verdict>)
    requires Inv(c, s)
    ensures Inv(c, LeaseNext(c, s, w, caps, types, max, ttl, sel, trace, vs).state)
    ensures Tracks(s, LeaseNext(c, s, w, caps, types, max, ttl, sel, trace, vs).state)
  {
    hide Inv, Tracks, GrantAll;
    TracksSelf(s);
    if LeaseNext(c, s, w, caps, types, max, ttl, sel, trace, vs).reply.Ok? {
      GrantAllKeeps(c, s, Matching(s.tasks, sel, caps), w, caps, ttl, trace, vs);
    }
  }

  lemma TickKeeps(c: Config, s: State, at: Time)
    requires Inv(c, s)
    ensures Inv(c, s.(now := Max(s.now, at)))
    ensures Tracks(s, s.(now := Max(s.now, at)))
  {
    hide Accounted, Replay, Of, LeaseMatchesStatus;
    var s' := s.(now := Max(s.now, at));
    forall i | 0 <= i < |s.ledger| ensures RowFits(s', i) { assert RowFits(s, i); }
    forall k | k in s'.calls ensures CallFits(s', s'.calls[k]) { assert CallFits(s, s.calls[k]); }
    SyncedFrame(s, s');
  }

  lemma AcknowledgeKeeps(c: Config, s: State, r: ReceiptId, actor: Principal, trace: string, v: Verdict)
    requires Inv(c, s)
    ensures Inv(c, Acknowledge(s, r, actor, trace, v).state)
    ensures Tracks(s, Acknowledge(s, r, actor, trace, v).state)
  {
    hide Inv, Tracks, Emit;
    TracksSelf(s);
    if Acknowledge(s, r, actor, trace, v).reply.Ok? {
      var d := Statement(ReceiptAcknowledged, actor, SERVICE_PRINCIPAL, None, None, [r], AcknowledgedBody(r), trace);
      NoticeKeeps(c, s, d, v);
    }
  }

  lemma CreateRefused(c: Config, s: State, r: NewTask, v: Verdict)
    requires !CreateTask(c, s, r, v).reply.Ok?
    ensures CreateTask(c, s, r, v).state == s
  {
  }

  lemma CreateKeepsAlways(c: Config, s: State, r: NewTask, v: Verdict)
    requires Inv(c, s)
    ensures Inv(c, CreateTask(c, s, r, v).state)
    ensures Tracks(s, CreateTask(c, s, r, v).state)
  {
    hide Inv, Tracks, CreateTask;
    TracksSelf(s);
    if CreateTask(c, s, r, v).reply.Ok? { CreateKeeps(c, s, r, v); } else { CreateRefused(c, s, r, v); }
  }

  lemma RenewRefused(c: Config, s: State, t: TaskId, l: LeaseId, w: WorkerId, extend: Option<int>)
    requires !RenewLease(c, s, t, l, w, extend).reply.Ok?
    ensures RenewLease(c, s, t, l, w, extend).state == s
  {
  }

  lemma RenewKeepsAlways(c: Config, s: State, t: TaskId, l: LeaseId, w: WorkerId, extend: Option<int>)
    requires Inv(c, s)
    ensures Inv(c, RenewLease(c, s, t, l, w, extend).state)
    ensures Tracks(s, RenewLease(c, s, t, l, w, extend).state)
  {
    hide Inv, Tracks, RenewLease;
    TracksSelf(s);
    if RenewLease(c, s, t, l, w, extend).reply.Ok? {
      RenewKeeps(c, s, t, l, w, extend);
    } else {
      RenewRefused(c, s, t, l, w, extend);
    }
  }

  /** One step, whichever it is, keeps the invariant; and unless it reconciles, the ledger keeps
      replaying to the tables. */
  lemma NextKeeps(c: Config, s: State, step: Step)
    requires Inv(c, s)
    ensures Inv(c, Next(c, s, step))
    ensures !step.DoReconcile? ==> Tracks(s, Next(c, s, step))
  {
    hide Inv, Tracks, CreateTask, CancelTask, LeaseNext, RenewLease, StartTask, ReportProgress, BeginComplete,
         BeginFail, Finish, ExpireLease, Reconcile, Acknowledge;
    match step
    case Tick(at) => TickKeeps(c, s, at);
    case DoCreate(r, v) => CreateKeepsAlways(c, s, r, v);
    case DoCancel(t, actor, reason, authorized, trace, v, w) =>
      CancelKeeps(c, s, t, actor, reason, authorized, trace, v, w);
    case DoLeaseNext(worker, caps, types, max, ttl, sel, trace, vs) =>
      LeaseNextKeeps(c, s, worker, caps, types, max, ttl, sel, trace, vs);
    case DoRenew(t, l, w, extend) => RenewKeepsAlways(c, s, t, l, w, extend);
    case DoStart(t, l, w, trace, v) => StartTaskKeeps(c, s, t, l, w, trace, v);
    case DoProgress(t, l, worker, data, trace, v, w) => ProgressKeeps(c, s, t, l, worker, data, trace, v, w);
    case DoBeginComplete(k, t, l, w, payload, artifacts) => BeginCompleteKeeps(c, s, k, t, l, w, payload, artifacts);
    case DoBeginFail(k, t, l, w, error, retryable) => BeginFailKeeps(c, s, k, t, l, w, error, retryable);
    case DoFinish(k, trace, v, w) => FinishKeeps(c, s, k, trace, v, w);
    case DoExpire(l, jitter, trace, v, w) => ExpireKeeps(c, s, l, jitter, trace, v, w);
    case DoReconcile(w, owed) => ReconcileKeeps(c, s, w, owed);
    case DoAcknowledge(r, actor, trace, v) => AcknowledgeKeeps(c, s, r, actor, trace, v);
  }

  /** The tasks a reconciliation takes from `w`. */
  function Freed(s: State, w: WorkerId, owed: set<TaskId>): set<TaskId> { TasksOf(s.leases, Stale(s, w, owed)) }

  /** Reconciliation writes no receipt: what it frees lapses, and nothing else does. */
  lemma ReconcileSynced(s: State, w: WorkerId, owed: set<TaskId>, loose: set<TaskId>)
    requires Tables(s) && Synced(s, loose)
    ensures Synced(Reconcile(s, w, owed), loose + Freed(s, w, owed))
  {
    hide Of, Replay;
    var s', freed := Reconcile(s, w, owed), Freed(s, w, owed);
    forall t | t in s'.tasks ensures if t in loose + freed then LapsedTask(s', t) else SyncedTask(s', t) {
      assert if t in loose then LapsedTask(s, t) else SyncedTask(s, t);
      if t in freed {
        var l :| l in Stale(s, w, owed) && s.leases[l].task == t;
        assert l in LeasesOn(s.leases, t);
      } else {
        assert LeasesOn(s'.leases, t) == LeasesOn(s.leases, t);
      }
    }
  }

  /** The tasks that a reconciliation of the run has freed and that have stayed in the queue since. */
  ghost function Lapsed(c: Config, s: State, steps: seq<Step>): set<TaskId>
    decreases |steps|
  {
    if steps == [] then {}
    else
      var n := |steps| - 1;
      var before, step := Run(c, s, steps[..n]), steps[n];
      var loose := Lapsed(c, s, steps[..n]);
      if step.DoReconcile? then loose + Freed(before, step.worker, step.owed) else Still(Next(c, before, step), loose)
  }

  /** The invariant holds after every run, and all tasks replay but those that have lapsed. */
  lemma {:induction false} RunKeeps(c: Config, s: State, steps: seq<Step>)
    requires Inv(c, s)
    ensures Inv(c, Run(c, s, steps))
    ensures Synced(s, {}) ==> Synced(Run(c, s, steps), Lapsed(c, s, steps))
    decreases |steps|
  {
    hide Inv, Synced, Next, Freed, Still;
    if steps == [] {
    } else {
      var n := |steps| - 1;
      var before := Run(c, s, steps[..n]);
      RunKeeps(c, s, steps[..n]);
      NextKeeps(c, before, steps[n]);
      if steps[n].DoReconcile? && Synced(s, {}) {
        assert Tables(before) by { InvTables(c, before); }
        ReconcileSynced(before, steps[n].worker, steps[n].owed, Lapsed(c, s, steps[..n]));
        NextReconciles(c, before, steps[n]);
      }
    }
  }

  lemma InvTables(c: Config, s: State)
    requires Inv(c, s)
    ensures Tables(s)
  {
  }

  lemma NextReconciles(c: Config, s: State, step: Step)
    requires step.DoReconcile?
    ensures Next(c, s, step) == Reconcile(s, step.worker, step.owed)
  {
  }

  /** Without reconciliation nothing lapses. */
  lemma {:induction false} NothingLapses(c: Config, s: State, steps: seq<Step>)
    requires forall st :: st in steps ==> !st.DoReconcile?
    ensures Lapsed(c, s, steps) == {}
    decreases |steps|
  {
    hide Next;
    if steps == [] {
    } else {
      NothingLapses(c, s, steps[..|steps| - 1]);
    }
  }
}
