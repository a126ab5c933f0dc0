/** Exactly when a call of the engine commits. A verdict other than `TooLarge` lets an internal receipt
    through; one of a forwarded type must not have been buffered or turned away either. */
module Commits {
  import opened Domain
  import opened Ledger
  import opened Lifecycle
  import opened LifecycleInvariant
  import opened LifecycleTheorems
  import opened Guarantees
  import opened Notices
  import opened Effects

  lemma SettlesIff(s: State, t: TaskId, row: Task, released: set<LeaseId>, d: Statement, v: Verdict,
                   extra: Option<Statement>, w: Verdict)
    requires Linked(s.ledger, d) && (extra.Some? ==> !IsTerminalType(extra.value.rtype))
    ensures Settle(s, t, row, released, d, v, extra, w).Some? <==>
              Proceeds(d.rtype, v) && (extra.Some? ==> Proceeds(extra.value.rtype, w))
  {
    hide Appended, Proceeds;
  }

  // ---------------------------------------------------------------------------------------
  // Creating and canceling
  // ---------------------------------------------------------------------------------------

  /** A create commits unless its receipt is too large, or its key is the empty one and taken. A key
      that is taken by a task makes it assign that task again, to the owner given this time, unless
      the same assignment is already on the ledger; the task's row stays as it is. */
  lemma CreatesIff(c: Config, s: State, r: NewTask, v: Verdict)
    requires Reachable(c, s)
    ensures CreateTask(c, s, r, v).reply.Ok? <==> v != TooLarge && !(r.key == Some("") && "" in s.keys)
    ensures r.key.Some? && r.key.value in s.keys ==> s.keys[r.key.value] in s.tasks
    ensures CreateTask(c, s, r, v).reply.Ok? && r.key.Some? && r.key.value in s.keys ==>
              var t, n := s.keys[r.key.value], |s.ledger|;
              var d := Statement(TaskAssigned, SERVICE, r.owner, Some(t), None, [],
                                 AssignedBody(r.taskType, s.tasks[t].capabilities), r.trace);
              var repeated := exists i :: 0 <= i < n && s.ledger[i].hashed && Hash(s.ledger[i].says) == Hash(d);
              CreateTask(c, s, r, v).state ==
                if repeated then s else s.(ledger := s.ledger + [Receipt(n, s.now, d, true)])
  {
    hide Reachable, Records, Accounts, Pending, LeaseMatchesStatus, LeasesInLifetime, Linked, Proceeds, Emit;
    ReachableInv(c, s);
    var old' := r.key.Some? && r.key.value in s.keys;
    var t := if old' then s.keys[r.key.value] else s.nextTask;
    var d := AssignedReceipt(r, t, if old' then s.tasks[t] else NewRow(c, s.now, r));
    EmissionRaisesIff(s.ledger, d, s.now, v);
    if Emit(s.ledger, d, s.now, v).Some? {
      EmissionAppends(s.ledger, d, s.now, v);
    }
  }

  /** A cancel commits exactly for an unfinished task, if the caller may cancel it, and if task.canceled
      reaches the external ledger or is refused by it. */
  lemma CancelsIff(c: Config, s: State, t: TaskId, actor: Principal, reason: string, authorized: bool, trace: string,
                   v: Verdict, w: Verdict)
    requires Reachable(c, s)
    ensures CancelTask(s, t, actor, reason, authorized, trace, v, w).reply.Ok? <==>
              && authorized && t in s.tasks && s.tasks[t].status in {Queued, Leased, Running}
              && v !in {TooLarge, Buffered, Unbufferable} && w != TooLarge
  {
    hide Reachable, Settle, Obligation, Proceeds, LeasesOn, Emit;
    if t in s.tasks {
      HasObligation(c, s, t);
      Unfinished(s.tasks[t].status);
      var o := Obligation(s.ledger, t, s.tasks[t].owner).value;
      var owner := s.ledger[o].says.to;
      var row := Finished(s.tasks[t], Canceled, None, reason, s.now);
      var d := Statement(TaskCanceled, actor, owner, Some(t), None, [o], CanceledBody(actor, reason, s.now), trace);
      SettlesIff(s, t, row, LeasesOn(s.leases, t), d, v, Some(ResultReady(t, row, owner, o, trace)), w);
      ProceedsMeans(TaskCanceled, v);
      ProceedsMeans(TaskResultReady, w);
    }
  }

  lemma ProceedsMeans(t: ReceiptType, v: Verdict)
    ensures Proceeds(t, v) <==>
              && v != TooLarge
              && (t in {TaskAccepted, TaskCompleted, TaskFailed, TaskCanceled, TaskEscalated} ==>
                    v !in {Buffered, Unbufferable})
  {
  }

  // ---------------------------------------------------------------------------------------
  // Claiming
  // ---------------------------------------------------------------------------------------

  lemma {:induction false} AcceptedIff(l: Rows, now: Time, tasks: map<TaskId, Task>, first: LeaseId, ts: seq<TaskId>,
                                       w: WorkerId, caps: set<string>, trace: string, vs: seq<Verdict>)
    requires forall t :: t in ts ==> t in tasks
    ensures Accepted(l, now, tasks, first, ts, w, caps, trace, vs).Some? <==>
              forall i :: 0 <= i < |ts| && i < |vs| ==> vs[i] !in {TooLarge, Buffered, Unbufferable}
  {
    hide Obligation, Emit;
    if ts == [] {
    } else {
      var n := |ts| - 1;
      AcceptedIff(l, now, tasks, first, ts[..n], w, caps, trace, vs);
      var before := Accepted(l, now, tasks, first, ts[..n], w, caps, trace, vs);
      if before.Some? {
        var d := AcceptedReceipt(before.value, ts[n], tasks[ts[n]], first + n, w, caps, trace);
        EmissionRaisesIff(before.value, d, now, VerdictAt(vs, n));
      }
    }
  }

  /** A claim commits exactly if it asks for a number that is not negative, the rows selected answer
      the query, and every one of its acceptances reaches the external ledger or is refused by it. */
  lemma ClaimsIff(c: Config, s: State, w: WorkerId, caps: set<string>, types: set<string>, max: int,
                  ttl: Option<int>, sel: seq<TaskId>, trace: string, vs: seq<Verdict>)
    ensures LeaseNext(c, s, w, caps, types, max, ttl, sel, trace, vs).reply.Ok? <==>
              && max >= 0 && IsSelection(s, types, if max <= 10 then max else 10, sel)
              && forall i :: 0 <= i < |Matching(s.tasks, sel, caps)| && i < |vs| ==>
                   vs[i] !in {TooLarge, Buffered, Unbufferable}
  {
    hide GrantAll, Accepted, Matching, IsSelection, ClaimedTasks, ClaimedLeases;
    var ts := Matching(s.tasks, sel, caps);
    ClaimThenAccept(c, s, ts, w, caps, ttl, trace, vs);
    AcceptedIff(s.ledger, s.now, s.tasks, s.nextLease, ts, w, caps, trace, vs);
  }

  // ---------------------------------------------------------------------------------------
  // Holding a lease
  // ---------------------------------------------------------------------------------------

  lemma MarksIff(c: Config, s: State, t: TaskId, l: LeaseId, w: WorkerId, trace: string, v: Verdict)
    requires t in s.tasks
    ensures MarkRunning(s, t, l, w, trace, v).Some? <==> v != TooLarge
  {
    hide Settle, Obligation, Proceeds;
    var d := FromHolder(s.ledger, TaskStarted, t, s.tasks[t], l, w, StartedBody(StartedAt(s, t)), trace);
    SettlesIff(s, t, s.tasks[t].(status := Running, startedAt := Some(StartedAt(s, t))), {}, d, v, None, v);
    ProceedsMeans(TaskStarted, v);
  }

  /** A start commits exactly for the holder of a lease that has not expired, unless a receipt is
      needed and too large. */
  lemma StartsIff(c: Config, s: State, t: TaskId, l: LeaseId, w: WorkerId, trace: string, v: Verdict)
    requires Reachable(c, s)
    ensures StartTask(s, t, l, w, trace, v).reply.Ok? <==>
              && l in s.leases && s.leases[l].task == t && s.leases[l].worker == w && s.now < s.leases[l].expiresAt
              && t in s.tasks && (s.tasks[t].status.Leased? ==> v != TooLarge)
  {
    hide Reachable, MarkRunning, Records, Accounts, Pending, LeaseMatchesStatus, LeasesInLifetime;
    ReachableInv(c, s);
    if Validates(s, t, l, w) {
      Holder(s, t, l, w);
      MarksIff(c, s, t, l, w, trace, v);
    }
  }

  /** So does a report of progress, which needs a receipt in any case. */
  lemma ReportsIff(c: Config, s: State, t: TaskId, l: LeaseId, w: WorkerId, data: string, trace: string, v: Verdict,
                   v': Verdict)
    requires Reachable(c, s)
    ensures ReportProgress(s, t, l, w, data, trace, v, v').reply.Ok? <==>
              && l in s.leases && s.leases[l].task == t && s.leases[l].worker == w && s.now < s.leases[l].expiresAt
              && t in s.tasks && (s.tasks[t].status.Leased? ==> v != TooLarge) && v' != TooLarge
  {
    hide Reachable, MarkRunning, Records, Accounts, Pending, LeaseMatchesStatus, LeasesInLifetime, Emit, Obligation;
    ReachableInv(c, s);
    if Validates(s, t, l, w) {
      Holder(s, t, l, w);
      MarksIff(c, s, t, l, w, trace, v);
      var running := if s.tasks[t].status.Leased? then MarkRunning(s, t, l, w, trace, v) else Some(s);
      if running.Some? {
        var d := FromHolder(s.ledger, TaskProgress, t, s.tasks[t], l, w, ProgressBody(data), trace);
        EmissionRaisesIff(running.value.ledger, d, s.now, v');
      }
    }
  }

  /** A pending call commits exactly if its lease is still its worker's, on its task, and not expired,
      and its receipts are let through: for another attempt the one receipt must not be too large;
      otherwise the terminal receipt must also have reached the external ledger or been refused by it. */
  lemma FinishesIff(c: Config, s: State, k: CallId, trace: string, v: Verdict, w: Verdict)
    requires Reachable(c, s) && k in s.calls
    ensures var call := s.calls[k];
            Finish(c, s, k, trace, v, w).reply.Ok? <==>
              && call.lease in s.leases && s.leases[call.lease].task == call.task
              && s.leases[call.lease].worker == call.worker && s.now < s.leases[call.lease].expiresAt
              && v != TooLarge
              && (call.CompleteCall? || !call.requeue ==> v !in {Buffered, Unbufferable} && w != TooLarge)
  {
    hide Reachable, Settle, Records, Accounts, LeaseMatchesStatus, LeasesInLifetime, Proceeds, Complete, Fail;
    ReachableInv(c, s);
    if Finish(c, s, k, trace, v, w).reply.Ok? {
      FinishValidates(c, s, k, trace, v, w);
    }
    var call := s.calls[k];
    if Validates(s, call.task, call.lease, call.worker) {
      Holder(s, call.task, call.lease, call.worker);
      assert CallFits(s, call);
      hide Tables, Pending;
      if call.CompleteCall? {
        CompleteCommitsIff(s, call, trace, v, w);
      } else {
        FailCommitsIff(c, s, call, trace, v, w);
      }
    }
  }

  lemma CompleteCommitsIff(s: State, k: Call, trace: string, v: Verdict, w: Verdict)
    requires k.CompleteCall? && k.obligation < |s.ledger| && Validates(s, k.task, k.lease, k.worker)
    requires k.task in s.tasks && IsActive(s.tasks[k.task].status)
    ensures Complete(s, k, trace, v, w).reply.Ok? <==> v !in {TooLarge, Buffered, Unbufferable} && w != TooLarge
  {
    hide Settle, Proceeds;
    var row := Finished(s.tasks[k.task], Succeeded, k.artifacts, k.payload, s.now);
    SettlesIff(s, k.task, row, {k.lease}, CompletedReceipt(k, trace), v,
               Some(ResultReady(k.task, row, k.owner, k.obligation, trace)), w);
    ProceedsMeans(TaskCompleted, v);
    ProceedsMeans(TaskResultReady, w);
  }

  lemma FailCommitsIff(c: Config, s: State, k: Call, trace: string, v: Verdict, w: Verdict)
    requires k.FailCall? && k.obligation < |s.ledger| && Validates(s, k.task, k.lease, k.worker) && k.task in s.tasks
    ensures Fail(c, s, k, trace, v, w).reply.Ok? <==>
              v != TooLarge && (!k.requeue ==> v !in {Buffered, Unbufferable} && w != TooLarge)
  {
    hide Settle, Proceeds, Backoff;
    var row := RequeuedWithBackoff(c, s.tasks[k.task], s.now);
    SettlesIff(s, k.task, row, {k.lease}, RetryReceipt(k, row, trace), v, None, w);
    ProceedsMeans(TaskRetryScheduled, v);
    row := Finished(s.tasks[k.task], Failed, None, k.error, s.now);
    SettlesIff(s, k.task, row, {k.lease}, FailedReceipt(k, trace), v,
               Some(ResultReady(k.task, row, k.owner, k.obligation, trace)), w);
    ProceedsMeans(TaskFailed, v);
    ProceedsMeans(TaskResultReady, w);
  }

  // ---------------------------------------------------------------------------------------
  // Losing a lease, and acknowledging
  // ---------------------------------------------------------------------------------------

  /** An expiry commits exactly for a lease past its end, on a task of this instance, unless
      lease.expired is too large or the escalation, where it is on, does not get through. */
  lemma ExpiresIff(c: Config, s: State, l: LeaseId, jitter: nat, trace: string, v: Verdict, w: Verdict)
    requires Reachable(c, s)
    ensures ExpireLease(c, s, l, jitter, trace, v, w).reply.Ok? <==>
              && l in s.leases && s.leases[l].expiresAt < s.now && s.leases[l].task in s.tasks
              && (c.instance == "" || s.tasks[s.leases[l].task].instance == c.instance)
              && v != TooLarge && (c.escalationEnabled ==> w !in {TooLarge, Buffered, Unbufferable})
  {
    hide Reachable, Settle, Proceeds, Obligation;
    if l in s.leases && s.leases[l].task in s.tasks {
      LeaseIffActive(c, s, s.leases[l].task);
      assert l in LeasesOn(s.leases, s.leases[l].task);
    }
    if Expired(c, s, l) {
      var t := s.leases[l].task;
      var d := ExpiredReceipt(s.ledger, t, s.tasks[t], l, s.leases[l], trace);
      SettlesIff(s, t, RequeuedOnExpiry(s.tasks[t], s.now, jitter), {l}, d, v,
                 Escalation(c, s.ledger, t, s.tasks[t], l, s.leases[l], trace), w);
      ProceedsMeans(LeaseExpired, v);
      ProceedsMeans(TaskEscalated, w);
    }
  }

  /** An acknowledgement goes from the actor to the service and names the receipt as its parent, unless
      it is too large or has been made before. It names any receipt it is given, stored or not. */
  lemma Acknowledged(s: State, receipt: ReceiptId, actor: Principal, trace: string, v: Verdict)
    ensures Acknowledge(s, receipt, actor, trace, v).reply.Ok? <==> v != TooLarge
    ensures var n, d := |s.ledger|, Statement(ReceiptAcknowledged, actor, SERVICE, None, None, [receipt],
                                              AcknowledgedBody(receipt), trace);
            var repeated := exists i :: 0 <= i < n && s.ledger[i].hashed && Hash(s.ledger[i].says) == Hash(d);
            Acknowledge(s, receipt, actor, trace, v).state ==
              if v == TooLarge || repeated then s else s.(ledger := s.ledger + [Receipt(n, s.now, d, true)])
  {
    hide Emit;
    var d := Statement(ReceiptAcknowledged, actor, SERVICE, None, None, [receipt], AcknowledgedBody(receipt), trace);
    EmissionRaisesIff(s.ledger, d, s.now, v);
    if v != TooLarge {
      EmissionAppends(s.ledger, d, s.now, v);
    }
  }
}
