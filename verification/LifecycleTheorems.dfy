/** What the task lifecycle guarantees, for every run and every interleaving. */
module LifecycleTheorems {
  import opened Domain
  import opened Ledger
  import opened Lifecycle
  import opened LifecycleInvariant

  lemma ReachableInv(c: Config, s: State)
    requires Reachable(c, s)
    ensures Inv(c, s)
  {
    var now, steps :| s == Run(c, Init(now), steps);
    InitInv(c, now);
    RunKeeps(c, Init(now), steps);
  }

  // ---------------------------------------------------------------------------------------
  // How one step may change the tables
  // ---------------------------------------------------------------------------------------

  /** A row stays as it was, or an unfinished task makes one legal transition; only a requeue
      after a failure counts as an attempt. */
  predicate RowMoves(old': Task, new': Task) {
    || new' == old'
    || (&& !IsTerminal(old'.status)
        && CanTransition(old'.status, new'.status)
        && new'.owner == old'.owner && new'.maxAttempts == old'.maxAttempts && new'.createdAt == old'.createdAt
        && (new'.attempt == old'.attempt || (new'.status.Queued? && new'.attempt == old'.attempt + 1)))
  }

  /** A lease that stays is the same grant: only its expiry and its renewal count may differ. */
  predicate SameGrant(a: Lease, b: Lease) { a.task == b.task && a.worker == b.worker && a.acquiredAt == b.acquiredAt }

  ghost predicate Moves(s: State, s': State) {
    && s.ledger <= s'.ledger && s.now <= s'.now && s.nextLease <= s'.nextLease && s.nextTask <= s'.nextTask
    && (forall t :: t in s.tasks ==> t in s'.tasks && RowMoves(s.tasks[t], s'.tasks[t]))
    && (forall l :: l in s'.leases && l < s.nextLease ==> l in s.leases && SameGrant(s.leases[l], s'.leases[l]))
  }

  lemma SelfMoves(s: State)
    ensures Moves(s, s)
  {
  }

  lemma SettleMoves(s: State, t: TaskId, row: Task, released: set<LeaseId>, d: Statement, v: Verdict,
                    extra: Option<Statement>, w: Verdict)
    requires t in s.tasks && RowMoves(s.tasks[t], row)
    requires Settle(s, t, row, released, d, v, extra, w).Some?
    ensures Moves(s, Settle(s, t, row, released, d, v, extra, w).value)
  {
    hide Settle;
  }

  lemma CancelMoves(s: State, t: TaskId, actor: Principal, reason: string, authorized: bool,
                    trace: string, v: Verdict, w: Verdict)
    ensures Moves(s, CancelTask(s, t, actor, reason, authorized, trace, v, w).state)
  {
    hide Settle, Obligation, Moves;
    SelfMoves(s);
    if CancelTask(s, t, actor, reason, authorized, trace, v, w).reply.Ok? {
      var o := Obligation(s.ledger, t, s.tasks[t].owner).value;
      var owner := s.ledger[o].says.to;
      var row := Finished(s.tasks[t], Canceled, None, reason, s.now);
      var d := Statement(TaskCanceled, actor, owner, Some(t), None, [o], CanceledBody(actor, reason, s.now), trace);
      SettleMoves(s, t, row, LeasesOn(s.leases, t), d, v, Some(ResultReady(t, row, owner, o, trace)), w);
    }
  }

  lemma CompleteMoves(s: State, k: Call, trace: string, v: Verdict, w: Verdict)
    requires k.CompleteCall?
    ensures Moves(s, Complete(s, k, trace, v, w).state)
  {
    hide Settle, Moves, CompletedReceipt, ResultReady;
    SelfMoves(s);
    if Complete(s, k, trace, v, w).reply.Ok? {
      var row := Finished(s.tasks[k.task], Succeeded, k.artifacts, k.payload, s.now);
      SettleMoves(s, k.task, row, {k.lease}, CompletedReceipt(k, trace), v,
                  Some(ResultReady(k.task, row, k.owner, k.obligation, trace)), w);
    }
  }

  lemma FailMoves(c: Config, s: State, k: Call, trace: string, v: Verdict, w: Verdict)
    requires Tables(s) && k.FailCall?
    ensures Moves(s, Fail(c, s, k, trace, v, w).state)
  {
    hide Settle, Backoff, LeaseMatchesStatus, Moves, RetryReceipt, FailedReceipt, ResultReady;
    var r := Fail(c, s, k, trace, v, w);
    if r.reply.Ok? {
      Holder(s, k.task, k.lease, k.worker);
      var row := if k.requeue then RequeuedWithBackoff(c, s.tasks[k.task], s.now)
                 else Finished(s.tasks[k.task], Failed, None, k.error, s.now);
      if k.requeue {
        SettleMoves(s, k.task, row, {k.lease}, RetryReceipt(k, row, trace), v, None, w);
      } else {
        SettleMoves(s, k.task, row, {k.lease}, FailedReceipt(k, trace), v,
                    Some(ResultReady(k.task, row, k.owner, k.obligation, trace)), w);
      }
    } else {
      SelfMoves(s);
    }
  }

  lemma FinishMoves(c: Config, s: State, k: CallId, trace: string, v: Verdict, w: Verdict)
    requires Tables(s)
    ensures Moves(s, Finish(c, s, k, trace, v, w).state)
  {
    hide Complete, Fail, LeaseMatchesStatus;
    if k in s.calls {
      if s.calls[k].CompleteCall? {
        CompleteMoves(s, s.calls[k], trace, v, w);
      } else {
        FailMoves(c, s, s.calls[k], trace, v, w);
      }
    }
  }

  lemma ExpireMoves(c: Config, s: State, l: LeaseId, jitter: nat, trace: string, v: Verdict, w: Verdict)
    ensures Moves(s, ExpireLease(c, s, l, jitter, trace, v, w).state)
  {
    hide Settle, Moves, ExpiredReceipt, Escalation;
    SelfMoves(s);
    if ExpireLease(c, s, l, jitter, trace, v, w).reply.Ok? {
      var t := s.leases[l].task;
      var row := s.tasks[t];
      SettleMoves(s, t, RequeuedOnExpiry(row, s.now, jitter), {l},
                  ExpiredReceipt(s.ledger, t, row, l, s.leases[l], trace), v,
                  Escalation(c, s.ledger, t, row, l, s.leases[l], trace), w);
    }
  }

  lemma StartMoves(s: State, t: TaskId, l: LeaseId, w: WorkerId, trace: string, v: Verdict)
    requires t in s.tasks && s.tasks[t].status.Leased? && MarkRunning(s, t, l, w, trace, v).Some?
    ensures Moves(s, MarkRunning(s, t, l, w, trace, v).value)
  {
    hide Settle, Moves, FromHolder;
    var started := StartedAt(s, t);
    SettleMoves(s, t, s.tasks[t].(status := Running, startedAt := Some(started)), {},
                FromHolder(s.ledger, TaskStarted, t, s.tasks[t], l, w, StartedBody(started), trace), v, None, v);
  }

  lemma ProgressMoves(s: State, t: TaskId, l: LeaseId, w: WorkerId, data: string, trace: string, v: Verdict,
                      v': Verdict)
    ensures Moves(s, StartTask(s, t, l, w, trace, v).state)
    ensures Moves(s, ReportProgress(s, t, l, w, data, trace, v, v').state)
  {
    hide MarkRunning, FromHolder, Emit, Validates;
    if t in s.tasks {
      var r := s;
      if s.tasks[t].status.Leased? && MarkRunning(s, t, l, w, trace, v).Some? {
        StartMoves(s, t, l, w, trace, v);
        r := MarkRunning(s, t, l, w, trace, v).value;
      }
      var d := FromHolder(s.ledger, TaskProgress, t, s.tasks[t], l, w, ProgressBody(data), trace);
      EmitGrows(r.ledger, d, s.now, v');
    }
  }

  lemma LeaseNextMoves(c: Config, s: State, w: WorkerId, caps: set<string>, types: set<string>, max: int,
                       ttl: Option<int>, sel: seq<TaskId>, trace: string, vs: seq<Verdict>)
    requires Inv(c, s)
    ensures Moves(s, LeaseNext(c, s, w, caps, types, max, ttl, sel, trace, vs).state)
  {
    hide Inv, GrantAll, Matching;
    if LeaseNext(c, s, w, caps, types, max, ttl, sel, trace, vs).reply.Ok? {
      GrantAllKeeps(c, s, Matching(s.tasks, sel, caps), w, caps, ttl, trace, vs);
    }
  }

  lemma ReconcileMoves(s: State, w: WorkerId, owed: set<TaskId>)
    requires Tables(s)
    ensures Moves(s, Reconcile(s, w, owed))
  {
    forall t | t in s.tasks ensures RowMoves(s.tasks[t], Reconcile(s, w, owed).tasks[t]) {
      var freed := TasksOf(s.leases, Stale(s, w, owed));
      if t in freed {
        var l :| l in Stale(s, w, owed) && s.leases[l].task == t;
        assert IsActive(s.tasks[t].status);
      }
    }
  }

  lemma CreateMoves(c: Config, s: State, r: NewTask, v: Verdict)
    requires Tables(s)
    ensures Moves(s, CreateTask(c, s, r, v).state)
  {
    hide Emit, NewRow, AssignedReceipt, LeaseMatchesStatus;
    if r.key.Some? && r.key.value in s.keys && s.keys[r.key.value] in s.tasks {
      var t := s.keys[r.key.value];
      EmitGrows(s.ledger, AssignedReceipt(r, t, s.tasks[t]), s.now, v);
    } else {
      EmitGrows(s.ledger, AssignedReceipt(r, s.nextTask, NewRow(c, s.now, r)), s.now, v);
    }
  }

  lemma EmitGrows(l: Rows, d: Statement, now: Time, v: Verdict)
    ensures Emit(l, d, now, v).Some? ==> l <= Emit(l, d, now, v).value
  {
    hide Appended;
  }

  lemma NextMoves(c: Config, s: State, step: Step)
    requires Inv(c, s)
    ensures Moves(s, Next(c, s, step))
  {
    hide Moves, CreateTask, CancelTask, LeaseNext, StartTask, ReportProgress, Finish, ExpireLease, Reconcile;
    match step
    case Tick(at) => TickMoves(s, at);
    case DoCreate(r, v) => CreateMoves(c, s, r, v);
    case DoCancel(t, actor, reason, authorized, trace, v, w) =>
      CancelMoves(s, t, actor, reason, authorized, trace, v, w);
    case DoLeaseNext(worker, caps, types, max, ttl, sel, trace, vs) =>
      LeaseNextMoves(c, s, worker, caps, types, max, ttl, sel, trace, vs);
    case DoRenew(t, l, w, extend) => RenewMoves(c, s, t, l, w, extend);
    case DoStart(t, l, w, trace, v) => ProgressMoves(s, t, l, w, "", trace, v, v);
    case DoProgress(t, l, worker, data, trace, v, w) => ProgressMoves(s, t, l, worker, data, trace, v, w);
    case DoBeginComplete(k, t, l, w, payload, artifacts) => BeginMoves(s, k, t, l, w, payload, artifacts, false);
    case DoBeginFail(k, t, l, w, error, retryable) => BeginMoves(s, k, t, l, w, error, None, retryable);
    case DoFinish(k, trace, v, w) => FinishMoves(c, s, k, trace, v, w);
    case DoExpire(l, jitter, trace, v, w) => ExpireMoves(c, s, l, jitter, trace, v, w);
    case DoReconcile(w, owed) => ReconcileMoves(s, w, owed);
    case DoAcknowledge(r, actor, trace, v) => AcknowledgeMoves(s, r, actor, trace, v);
  }

  lemma TickMoves(s: State, at: Time)
    ensures Moves(s, s.(now := Max(s.now, at)))
  {
  }

  lemma RenewMoves(c: Config, s: State, t: TaskId, l: LeaseId, w: WorkerId, extend: Option<int>)
    ensures Moves(s, RenewLease(c, s, t, l, w, extend).state)
  {
  }

  lemma BeginMoves(s: State, k: CallId, t: TaskId, l: LeaseId, w: WorkerId, text: string, artifacts: Option<Artifacts>,
                   retryable: bool)
    ensures Moves(s, BeginComplete(s, k, t, l, w, text, artifacts).state)
    ensures Moves(s, BeginFail(s, k, t, l, w, text, retryable).state)
  {
    hide Obligation;
  }

  lemma AcknowledgeMoves(s: State, r: ReceiptId, actor: Principal, trace: string, v: Verdict)
    ensures Moves(s, Acknowledge(s, r, actor, trace, v).state)
  {
    hide Appended;
  }
}
