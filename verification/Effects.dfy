/** What each call of the engine leaves behind, written out field by field. */
module Effects {
  import opened Domain
  import opened Ledger
  import opened Lifecycle
  import opened LifecycleInvariant
  import opened LifecycleTheorems
  import opened Guarantees
  import opened Notices

  /** The service as sender of receipts. */
  const SERVICE := Principal(Service, "svc:asyncgate")

  // ---------------------------------------------------------------------------------------
  // Emission
  // ---------------------------------------------------------------------------------------

  /** An emission raises exactly on a size limit, for a completed, failed or canceled receipt without
      stored parents, and for one of the five forwarded types that was buffered or may not wait. */
  lemma EmissionRaisesIff(l: Rows, d: Statement, now: Time, v: Verdict)
    ensures Emit(l, d, now, v).None? <==>
              || v == TooLarge
              || (d.rtype in {TaskCompleted, TaskFailed, TaskCanceled} &&
                  (d.parents == [] || exists p :: p in d.parents && p >= |l|))
              || (d.rtype in {TaskAccepted, TaskCompleted, TaskFailed, TaskCanceled, TaskEscalated} &&
                  v in {Buffered, Unbufferable})
  {
    hide Appended;
  }

  /** One that does not raise appends nothing if a hashed receipt says the same, and else the receipt;
      a success without artifacts and delivery proof loses its parents and is followed by an anomaly
      that tells the addressee which parents it named. */
  lemma EmissionAppends(l: Rows, d: Statement, now: Time, v: Verdict)
    requires Emit(l, d, now, v).Some?
    ensures var lost := d.rtype.TaskCompleted? &&
                        !(d.body.CompletedBody? && (d.body.artifacts.Some? || d.body.deliveryProof.Some?));
            var kept := if lost then d.(parents := []) else d;
            var n := |l|;
            Emit(l, d, now, v).value ==
              if exists i :: 0 <= i < n && l[i].hashed && Hash(l[i].says) == Hash(kept) then l
              else l + [Receipt(n, now, kept, true)] +
                   if lost then [Receipt(n + 1, now, Statement(SystemAnomaly, SERVICE, d.to, d.task, None, [n],
                                                               AnomalyBody(n, d.parents), d.trace), false)]
                   else []
  {
    hide Linked, Proceeds;
  }

  // ---------------------------------------------------------------------------------------
  // Creating
  // ---------------------------------------------------------------------------------------

  /** A committed create with no key or a new one inserts a queued row under the next id, with the
      configured defaults for what the request leaves out or sets to zero, and assigns it: from the
      service to the requested owner. */
  lemma Created(c: Config, s: State, r: NewTask, v: Verdict)
    requires Reachable(c, s) && CreateTask(c, s, r, v).reply.Ok? && (r.key.Some? ==> r.key.value !in s.keys)
    ensures var t, n := s.nextTask, |s.ledger|;
            var row := Task(
              r.taskType, r.owner, r.capabilities,
              if r.priority.Some? && r.priority.value != 0 then r.priority.value else c.defaultPriority, Queued, 0,
              if r.maxAttempts.Some? && r.maxAttempts.value != 0 then r.maxAttempts.value else c.defaultMaxAttempts,
              if r.backoffSeconds.Some? && r.backoffSeconds.value != 0 then r.backoffSeconds.value
              else c.defaultBackoff,
              s.now,
              if r.delaySeconds.Some? && r.delaySeconds.value != 0 then Some(s.now + r.delaySeconds.value * 1_000_000)
              else None,
              None, None, c.instance);
            && t !in s.tasks
            && CreateTask(c, s, r, v).state ==
                 s.(tasks := s.tasks[t := row], nextTask := t + 1,
                    keys := if r.key.Some? then s.keys[r.key.value := t] else s.keys,
                    ledger := s.ledger +
                      [Receipt(n, s.now, Statement(TaskAssigned, SERVICE, r.owner, Some(t), None, [],
                                                   AssignedBody(r.taskType, r.capabilities), r.trace), true)])
  {
    hide Reachable, Inv, Stored, Linked, Proceeds, Tables, Records;
    ReachableInv(c, s);
    InvParts(c, s);
    NextTaskIsNew(s);
    FreshIsNew(s, AssignedReceipt(r, s.nextTask, NewRow(c, s.now, r)));
  }

  lemma NextTaskIsNew(s: State)
    requires Tables(s)
    ensures s.nextTask !in s.tasks
  {
  }

  // ---------------------------------------------------------------------------------------
  // Ending a task
  // ---------------------------------------------------------------------------------------

  /** The receipts that a finished task leaves: `d`, an anomaly if `d` lost its parents, and the
      notice of the end. */
  lemma LastRows(s: State, t: TaskId, row: Task, released: set<LeaseId>, d: Statement, v: Verdict, owner: Principal,
                 o: ReceiptId, trace: string, w: Verdict)
    requires Records(s) && Accounts(s) && Told(s) && t in s.tasks && !IsTerminal(s.tasks[t].status)
    requires d.task == Some(t) && IsTerminalType(d.rtype)
    requires Settle(s, t, row, released, d, v, Some(ResultReady(t, row, owner, o, trace)), w).Some?
    ensures var s' := Settle(s, t, row, released, d, v, Some(ResultReady(t, row, owner, o, trace)), w).value;
            var n := |s.ledger|;
            var lost := d.rtype.TaskCompleted? &&
                        !(d.body.CompletedBody? && (d.body.artifacts.Some? || d.body.deliveryProof.Some?));
            var told := Statement(SystemAnomaly, SERVICE, d.to, d.task, None, [n], AnomalyBody(n, d.parents), d.trace);
            var anomaly := if lost then [Receipt(n + 1, s.now, told, false)] else [];
            var artifacts := if row.result.Some? then row.result.value.artifacts else None;
            s'.ledger == s.ledger + [Receipt(n, s.now, if lost then d.(parents := []) else d, true)] + anomaly +
                         [Receipt(n + 1 + |anomaly|, s.now,
                                  Statement(TaskResultReady, SERVICE, owner, Some(t), None, [o],
                                            ResultReadyBody(row.status, artifacts), trace), true)]
  {
    hide Records, Accounts, Told, Settle, Stored, Emit;
    SettleTells(s, t, row, released, d, v, ResultReady(t, row, owner, o, trace), w);
    ExitIsNew(s, t, d);
    EmissionAppends(s.ledger, d, s.now, v);
    hide Emit, Settle;
    NotRepeated(s.ledger, Stripped(d));
  }

  lemma NotRepeated(l: Rows, d: Statement)
    requires !Stored(l, d)
    ensures !exists i :: 0 <= i < |l| && l[i].hashed && Hash(l[i].says) == Hash(d)
  {
  }

  /** What a locked phase needs: the call is pending, and its lease is in the table, on its task, its
      worker's, and not expired. It finds the task in its hands, and leaves the call forgotten. */
  lemma Authority(c: Config, s: State, k: CallId, trace: string, v: Verdict, w: Verdict)
    requires Reachable(c, s) && k in s.calls && Finish(c, s, k, trace, v, w).reply.Ok?
    ensures var call := s.calls[k];
            && call.lease in s.leases && s.leases[call.lease].task == call.task
            && s.leases[call.lease].worker == call.worker && s.now < s.leases[call.lease].expiresAt
            && call.task in s.tasks && s.tasks[call.task].status in {Leased, Running}
            && call.obligation < |s.ledger| && s.ledger[call.obligation].says.rtype.TaskAssigned?
            && s.ledger[call.obligation].says.task == Some(call.task) && s.ledger[call.obligation].says.to == call.owner
    ensures Finish(c, s, k, trace, v, w).state.calls == s.calls - {k}
  {
    hide Reachable, Records, Accounts, LeaseMatchesStatus, LeasesInLifetime, IdsIssued, Settle, ResultReady, Finished,
         CompletedReceipt, FailedReceipt, RetryReceipt, RequeuedWithBackoff;
    ReachableInv(c, s);
    FinishValidates(c, s, k, trace, v, w);
    Holder(s, s.calls[k].task, s.calls[k].lease, s.calls[k].worker);
    assert CallFits(s, s.calls[k]);
  }

  lemma CompleteSettles(c: Config, s: State, k: CallId, trace: string, v: Verdict, w: Verdict)
    requires k in s.calls && s.calls[k].CompleteCall? && Finish(c, s, k, trace, v, w).reply.Ok?
    ensures s.calls[k].task in s.tasks
    ensures var call := s.calls[k];
            var row := Finished(s.tasks[call.task], Succeeded, call.artifacts, call.payload, s.now);
            var r := Settle(s, call.task, row, {call.lease}, CompletedReceipt(call, trace), v,
                            Some(ResultReady(call.task, row, call.owner, call.obligation, trace)), w);
            r.Some? && Finish(c, s, k, trace, v, w).state == r.value.(calls := s.calls - {k})
  {
    hide Validates, Settle, ResultReady, Finished, CompletedReceipt;
  }

  lemma FailSettles(c: Config, s: State, k: CallId, trace: string, v: Verdict, w: Verdict)
    requires k in s.calls && s.calls[k].FailCall? && !s.calls[k].requeue && Finish(c, s, k, trace, v, w).reply.Ok?
    ensures s.calls[k].task in s.tasks
    ensures var call := s.calls[k];
            var row := Finished(s.tasks[call.task], Failed, None, call.error, s.now);
            var r := Settle(s, call.task, row, {call.lease}, FailedReceipt(call, trace), v,
                            Some(ResultReady(call.task, row, call.owner, call.obligation, trace)), w);
            r.Some? && Finish(c, s, k, trace, v, w).state == r.value.(calls := s.calls - {k})
  {
    hide Validates, Settle, ResultReady, Finished, FailedReceipt;
  }

  /** A committed `complete` makes the task SUCCEEDED with the call's payload and artifacts, frees its
      lease, and tells the obligation's addressee twice: task.completed from the worker, which closes
      the obligation if there are artifacts and otherwise names nothing and is followed by an anomaly,
      and result_ready from the service. */
  lemma Completed(c: Config, s: State, k: CallId, trace: string, v: Verdict, w: Verdict)
    requires Reachable(c, s) && k in s.calls && s.calls[k].CompleteCall? && Finish(c, s, k, trace, v, w).reply.Ok?
    ensures s.calls[k].task in s.tasks && s.calls[k].obligation < |s.ledger|
    ensures var CompleteCall(worker, t, lease, payload, artifacts, o, _) := s.calls[k];
            var s', n, owner := Finish(c, s, k, trace, v, w).state, |s.ledger|, s.ledger[o].says.to;
            var done := Statement(TaskCompleted, Principal(Worker, worker), owner, Some(t), Some(lease),
                                  if artifacts.Some? then [o] else [], CompletedBody(payload, artifacts, None), trace);
            var anomaly := Statement(SystemAnomaly, SERVICE, owner, Some(t), None, [n], AnomalyBody(n, [o]), trace);
            var ready := Statement(TaskResultReady, SERVICE, owner, Some(t), None, [o],
                                   ResultReadyBody(Succeeded, artifacts), trace);
            && s'.tasks == s.tasks[t := s.tasks[t].(status := Succeeded,
                                                    result := Some(TaskResult(Succeeded, artifacts, payload, s.now)))]
            && s'.leases == s.leases - {lease} && s'.calls == s.calls - {k}
            && s'.ledger == s.ledger + [Receipt(n, s.now, done, true)] +
                            (if artifacts.Some? then [Receipt(n + 1, s.now, ready, true)]
                             else [Receipt(n + 1, s.now, anomaly, false), Receipt(n + 2, s.now, ready, true)])
  {
    hide Reachable, Inv, Told, Settle, Records, Accounts, Finish, ResultReady;
    Authority(c, s, k, trace, v, w);
    ReachableInv(c, s);
    ReachableTold(c, s);
    InvParts(c, s);
    CompleteSettles(c, s, k, trace, v, w);
    var call := s.calls[k];
    var row := Finished(s.tasks[call.task], Succeeded, call.artifacts, call.payload, s.now);
    LastRows(s, call.task, row, {call.lease}, CompletedReceipt(call, trace), v, call.owner, call.obligation, trace, w);
  }

  /** A committed `fail` without another attempt makes the task FAILED with the call's error, frees
      its lease, and tells the obligation's addressee twice: task.failed from the worker, which closes
      the obligation, and result_ready from the service. */
  lemma FailedForGood(c: Config, s: State, k: CallId, trace: string, v: Verdict, w: Verdict)
    requires Reachable(c, s) && k in s.calls && s.calls[k].FailCall? && Finish(c, s, k, trace, v, w).reply.Ok?
    requires !s.calls[k].requeue
    ensures s.calls[k].task in s.tasks && s.calls[k].obligation < |s.ledger|
    ensures var FailCall(worker, t, lease, error, _, _, o, _) := s.calls[k];
            var s', n, owner := Finish(c, s, k, trace, v, w).state, |s.ledger|, s.ledger[o].says.to;
            && !(s.calls[k].retryable && s.tasks[t].attempt + 1 < s.tasks[t].maxAttempts)
            && s'.tasks == s.tasks[t := s.tasks[t].(status := Failed,
                                                    result := Some(TaskResult(Failed, None, error, s.now)))]
            && s'.leases == s.leases - {lease} && s'.calls == s.calls - {k}
            && s'.ledger == s.ledger +
                 [Receipt(n, s.now, Statement(TaskFailed, Principal(Worker, worker), owner, Some(t), Some(lease), [o],
                                              FailedBody(error), trace), true),
                  Receipt(n + 1, s.now, Statement(TaskResultReady, SERVICE, owner, Some(t), None, [o],
                                                  ResultReadyBody(Failed, None), trace), true)]
  {
    hide Reachable, Inv, Told, Settle, Records, Accounts, Finish, ResultReady;
    Authority(c, s, k, trace, v, w);
    ReachableInv(c, s);
    ReachableTold(c, s);
    InvParts(c, s);
    FailSettles(c, s, k, trace, v, w);
    RetryIsAllowed(c, s, k);
    var call := s.calls[k];
    var row := Finished(s.tasks[call.task], Failed, None, call.error, s.now);
    LastRows(s, call.task, row, {call.lease}, FailedReceipt(call, trace), v, call.owner, call.obligation, trace, w);
  }

  lemma Unfinished(status: TaskStatus)
    ensures !IsTerminal(status) <==> status in {Queued, Leased, Running}
  {
    match status
    case _ =>
  }

  /** A committed cancel makes an unfinished task CANCELED with the reason, frees whatever lease it
      has, and tells the addressee of the task's obligation twice: task.canceled from the actor, which
      closes the obligation, and result_ready from the service. */
  lemma CanceledBy(c: Config, s: State, t: TaskId, actor: Principal, reason: string, authorized: bool, trace: string,
                   v: Verdict, w: Verdict)
    requires Reachable(c, s) && CancelTask(s, t, actor, reason, authorized, trace, v, w).reply.Ok?
    ensures authorized && t in s.tasks && s.tasks[t].status in {Queued, Leased, Running}
    ensures Obligation(s.ledger, t, s.tasks[t].owner).Some?
    ensures var o := Obligation(s.ledger, t, s.tasks[t].owner).value;
            var s', n, owner := CancelTask(s, t, actor, reason, authorized, trace, v, w).state, |s.ledger|,
                                s.ledger[o].says.to;
            && s'.tasks == s.tasks[t := s.tasks[t].(status := Canceled,
                                                    result := Some(TaskResult(Canceled, None, reason, s.now)))]
            && (forall l :: l in s'.leases <==> l in s.leases && s.leases[l].task != t)
            && (forall l :: l in s'.leases ==> s'.leases[l] == s.leases[l])
            && s'.ledger == s.ledger +
                 [Receipt(n, s.now, Statement(TaskCanceled, actor, owner, Some(t), None, [o],
                                              CanceledBody(actor, reason, s.now), trace), true),
                  Receipt(n + 1, s.now, Statement(TaskResultReady, SERVICE, owner, Some(t), None, [o],
                                                  ResultReadyBody(Canceled, None), trace), true)]
  {
    hide Reachable, Inv, Told, Settle, Records, Accounts, Obligation, ResultReady;
    Unfinished(s.tasks[t].status);
    ReachableInv(c, s);
    ReachableTold(c, s);
    InvParts(c, s);
    var o := Obligation(s.ledger, t, s.tasks[t].owner).value;
    var owner := s.ledger[o].says.to;
    var row := Finished(s.tasks[t], Canceled, None, reason, s.now);
    var d := Statement(TaskCanceled, actor, owner, Some(t), None, [o], CanceledBody(actor, reason, s.now), trace);
    LastRows(s, t, row, LeasesOn(s.leases, t), d, v, owner, o, trace, w);
  }

  // ---------------------------------------------------------------------------------------
  // Another attempt
  // ---------------------------------------------------------------------------------------

  /** A committed `fail` with another attempt queues the task: one attempt more, no start time, and
      eligible again after the task's backoff, doubled for every attempt it had used before and capped
      at the configured maximum. It frees the lease and tells the obligation's addressee, whose
      obligation stays open. */
  lemma RetryScheduled(c: Config, s: State, k: CallId, trace: string, v: Verdict, w: Verdict)
    requires Reachable(c, s) && k in s.calls && s.calls[k].FailCall? && Finish(c, s, k, trace, v, w).reply.Ok?
    requires s.calls[k].requeue
    ensures s.calls[k].task in s.tasks && s.calls[k].obligation < |s.ledger|
    ensures var FailCall(worker, t, lease, error, retryable, _, o, _) := s.calls[k];
            var s', n, old' := Finish(c, s, k, trace, v, w).state, |s.ledger|, s.tasks[t];
            var wait := Doubled(old'.backoffSeconds, old'.attempt);
            var eligible := Some(s.now + (if wait <= c.maxBackoff then wait else c.maxBackoff) * 1_000_000);
            && retryable && old'.attempt + 1 < old'.maxAttempts
            && s'.tasks == s.tasks[t := old'.(status := Queued, attempt := old'.attempt + 1, startedAt := None,
                                              nextEligibleAt := eligible)]
            && s'.leases == s.leases - {lease} && s'.calls == s.calls - {k}
            && s'.ledger == s.ledger +
                 [Receipt(n, s.now,
                          Statement(TaskRetryScheduled, Principal(Worker, worker), s.ledger[o].says.to, Some(t),
                                    Some(lease), [o], RetryBody(error, old'.attempt + 1, old'.maxAttempts, eligible),
                                    trace), true)]
  {
    hide Reachable, Inv, Settle, Records, Accounts, Pow2, Stored, Emit, CallFits;
    Authority(c, s, k, trace, v, w);
    ReachableInv(c, s);
    InvParts(c, s);
    var call := s.calls[k];
    var t := call.task;
    RetryIsAllowed(c, s, k);
    DoubledIsPower(s.tasks[t].backoffSeconds, s.tasks[t].attempt);
    var row := RequeuedWithBackoff(c, s.tasks[t], s.now);
    OneRow(s, t, row, {call.lease}, RetryReceipt(call, row, trace), v, w);
  }

  lemma RetryIsAllowed(c: Config, s: State, k: CallId)
    requires Inv(c, s) && k in s.calls && s.calls[k].FailCall?
    requires s.calls[k].lease in s.leases && s.leases[s.calls[k].lease].task == s.calls[k].task
    requires s.calls[k].task in s.tasks
    ensures var row := s.tasks[s.calls[k].task];
            s.calls[k].requeue <==> s.calls[k].retryable && row.attempt + 1 < row.maxAttempts
  {
    hide Tables, Records, Accounts, Lifetimes;
    assert CallFits(s, s.calls[k]);
  }

  /** The single receipt of a requeue. */
  lemma OneRow(s: State, t: TaskId, row: Task, released: set<LeaseId>, d: Statement, v: Verdict, w: Verdict)
    requires Records(s) && Accounts(s) && t in s.tasks && d.task == Some(t)
    requires d.rtype in {TaskRetryScheduled, LeaseExpired} && d.lease.Some? && d.lease.value in s.leases
    requires Settle(s, t, row, released, d, v, None, w).Some?
    ensures Settle(s, t, row, released, d, v, None, w).value.ledger == s.ledger + [Receipt(|s.ledger|, s.now, d, true)]
  {
    hide Records, Accounts, Stored;
    ExitIsNew(s, t, d);
  }

  // ---------------------------------------------------------------------------------------
  // Waiting in the queue
  // ---------------------------------------------------------------------------------------

  /** From `s` to `s'` the waiting task `t` has not been leased. */
  predicate NotLeased(s: State, s': State, t: TaskId) { t in s.tasks && t in s'.tasks && !s'.tasks[t].status.Leased? }

  lemma SettleNotLeased(s: State, u: TaskId, row: Task, released: set<LeaseId>, d: Statement, v: Verdict,
                        extra: Option<Statement>, w: Verdict, t: TaskId)
    requires t in s.tasks && !s.tasks[t].status.Leased? && !row.status.Leased?
    requires Settle(s, u, row, released, d, v, extra, w).Some?
    ensures NotLeased(s, Settle(s, u, row, released, d, v, extra, w).value, t)
  {
    hide Settle;
  }

  lemma CancelNotLeased(s: State, u: TaskId, actor: Principal, reason: string, authorized: bool, trace: string,
                        v: Verdict, w: Verdict, t: TaskId)
    requires t in s.tasks && !s.tasks[t].status.Leased?
    ensures NotLeased(s, CancelTask(s, u, actor, reason, authorized, trace, v, w).state, t)
  {
    hide Settle, Obligation, LeasesOn, ResultReady;
    var s' := CancelTask(s, u, actor, reason, authorized, trace, v, w).state;
    if s' != s {
      var row := Finished(s.tasks[u], Canceled, None, reason, s.now);
      assert s'.tasks == s.tasks[u := row] && row.status.Canceled?;
    }
  }

  lemma CompleteNotLeased(s: State, k: Call, trace: string, v: Verdict, w: Verdict, t: TaskId)
    requires t in s.tasks && !s.tasks[t].status.Leased? && k.CompleteCall?
    ensures NotLeased(s, Complete(s, k, trace, v, w).state, t)
  {
    hide Settle, ResultReady, CompletedReceipt, Validates;
  }

  lemma FailNotLeased(c: Config, s: State, k: Call, trace: string, v: Verdict, w: Verdict, t: TaskId)
    requires t in s.tasks && !s.tasks[t].status.Leased? && k.FailCall?
    ensures NotLeased(s, Fail(c, s, k, trace, v, w).state, t)
  {
    hide Settle, ResultReady, FailedReceipt, RetryReceipt, Validates, RequeuedWithBackoff, Finished;
    if k.task in s.tasks {
      RowsOfFail(c, s.tasks[k.task], k, s.now);
    }
  }

  lemma RowsOfFail(c: Config, row: Task, k: Call, now: Time)
    requires k.FailCall?
    ensures RequeuedWithBackoff(c, row, now).status.Queued?
    ensures Finished(row, Failed, None, k.error, now).status.Failed?
  {
  }

  lemma FinishNotLeased(c: Config, s: State, k: CallId, trace: string, v: Verdict, w: Verdict, t: TaskId)
    requires t in s.tasks && !s.tasks[t].status.Leased?
    ensures NotLeased(s, Finish(c, s, k, trace, v, w).state, t)
  {
    hide Complete, Fail;
    if k in s.calls {
      if s.calls[k].CompleteCall? {
        CompleteNotLeased(s, s.calls[k], trace, v, w, t);
      } else {
        FailNotLeased(c, s, s.calls[k], trace, v, w, t);
      }
    }
  }

  lemma ExpireNotLeased(c: Config, s: State, l: LeaseId, jitter: nat, trace: string, v: Verdict, w: Verdict, t: TaskId)
    requires t in s.tasks && !s.tasks[t].status.Leased?
    ensures NotLeased(s, ExpireLease(c, s, l, jitter, trace, v, w).state, t)
  {
    hide Settle, ExpiredReceipt, Escalation;
  }

  lemma StartNotLeased(s: State, u: TaskId, l: LeaseId, w: WorkerId, data: string, trace: string, v: Verdict,
                       v': Verdict, t: TaskId)
    requires t in s.tasks && !s.tasks[t].status.Leased?
    ensures NotLeased(s, StartTask(s, u, l, w, trace, v).state, t)
    ensures NotLeased(s, ReportProgress(s, u, l, w, data, trace, v, v').state, t)
  {
    hide Settle, FromHolder, Emit, Validates;
  }

  lemma CreateNotLeased(c: Config, s: State, r: NewTask, v: Verdict, t: TaskId)
    requires t in s.tasks && !s.tasks[t].status.Leased?
    ensures NotLeased(s, CreateTask(c, s, r, v).state, t)
  {
    hide Emit;
  }

  lemma OtherNotLeased(c: Config, s: State, step: Step, t: TaskId)
    requires t in s.tasks && !s.tasks[t].status.Leased?
    requires step.Tick? || step.DoRenew? || step.DoBeginComplete? || step.DoBeginFail? || step.DoAcknowledge?
    ensures NotLeased(s, Next(c, s, step), t)
  {
    hide Emit, Obligation, Validates;
  }

  /** Only a claim takes a task out of the queue to a worker: not before its time, only for a type the
      request accepts, and only if its capabilities are offered. */
  lemma LeasedByClaim(c: Config, s: State, step: Step, t: TaskId)
    requires Inv(c, s) && t in s.tasks && s.tasks[t].status.Queued?
    requires t in Next(c, s, step).tasks && Next(c, s, step).tasks[t].status.Leased?
    ensures step.DoLeaseNext?
    ensures s.tasks[t].nextEligibleAt.Some? ==> s.tasks[t].nextEligibleAt.value <= s.now
    ensures s.tasks[t].taskType in step.types || step.types == {}
    ensures s.tasks[t].capabilities <= step.capabilities
  {
    hide Inv, CreateTask, CancelTask, LeaseNext, RenewLease, StartTask, ReportProgress, BeginComplete,
         BeginFail, Finish, ExpireLease, Reconcile, Acknowledge;
    match step {
      case DoCreate(r, v) => CreateNotLeased(c, s, r, v, t);
      case DoCancel(u, actor, reason, authorized, trace, v, w) =>
        CancelNotLeased(s, u, actor, reason, authorized, trace, v, w, t);
      case DoLeaseNext(worker, caps, types, max, ttl, sel, trace, vs) =>
        ClaimedIsEligible(c, s, worker, caps, types, max, ttl, sel, trace, vs, t);
      case DoStart(u, l, w, trace, v) => StartNotLeased(s, u, l, w, "", trace, v, v, t);
      case DoProgress(u, l, worker, data, trace, v, w) => StartNotLeased(s, u, l, worker, data, trace, v, w, t);
      case DoFinish(k, trace, v, w) => FinishNotLeased(c, s, k, trace, v, w, t);
      case DoExpire(l, jitter, trace, v, w) => ExpireNotLeased(c, s, l, jitter, trace, v, w, t);
      case DoReconcile(w, owed) => ReconciledStatus(s, w, owed, t);
      case _ => OtherNotLeased(c, s, step, t);
    }
  }

  lemma ClaimedIsEligible(c: Config, s: State, w: WorkerId, caps: set<string>, types: set<string>, max: int,
                          ttl: Option<int>, sel: seq<TaskId>, trace: string, vs: seq<Verdict>, t: TaskId)
    requires Inv(c, s) && t in s.tasks && s.tasks[t].status.Queued?
    requires var s' := LeaseNext(c, s, w, caps, types, max, ttl, sel, trace, vs).state;
             t in s'.tasks && s'.tasks[t].status.Leased?
    ensures s.tasks[t].nextEligibleAt.Some? ==> s.tasks[t].nextEligibleAt.value <= s.now
    ensures s.tasks[t].taskType in types || types == {}
    ensures s.tasks[t].capabilities <= caps
  {
    hide Inv, GrantAll, Matching, Tracks;
    var ts := Matching(s.tasks, sel, caps);
    GrantAllKeeps(c, s, ts, w, caps, ttl, trace, vs);
    assert t in ts;
    var i :| 0 <= i < |sel| && sel[i] == t;
    assert Eligible(s, sel[i], types);
  }

  lemma ReconciledStatus(s: State, w: WorkerId, owed: set<TaskId>, t: TaskId)
    requires t in s.tasks && s.tasks[t].status.Queued?
    ensures Reconcile(s, w, owed).tasks[t].status.Queued?
  {
  }

  /** A task that may not run before a certain time does not: whatever happens before, its row stays
      as it is, unless it is canceled. */
  lemma {:induction false} NotBeforeItsTime(c: Config, s: State, steps: seq<Step>, t: TaskId)
    requires Reachable(c, s) && t in s.tasks && s.tasks[t].status.Queued? && s.tasks[t].nextEligibleAt.Some?
    requires Run(c, s, steps).now < s.tasks[t].nextEligibleAt.value
    ensures var s' := Run(c, s, steps);
            t in s'.tasks && (s'.tasks[t] == s.tasks[t] || s'.tasks[t].status.Canceled?)
    decreases |steps|
  {
    hide Inv, Next, Reachable;
    if steps == [] {
    } else {
      var n := |steps| - 1;
      var before := Run(c, s, steps[..n]);
      ReachableInv(c, s);
      RunKeeps(c, s, steps[..n]);
      NextMoves(c, before, steps[n]);
      NotBeforeItsTime(c, s, steps[..n], t);
      var s' := Next(c, before, steps[n]);
      if s'.tasks[t].status.Leased? && before.tasks[t].status.Queued? {
        LeasedByClaim(c, before, steps[n], t);
      }
    }
  }

  // ---------------------------------------------------------------------------------------
  // Claiming
  // ---------------------------------------------------------------------------------------

  /** Rows that assign nothing do not change what the obligation of a task is. */
  lemma {:induction false} ObligationStays(l: Rows, m: Rows, t: TaskId, owner: Option<Principal>)
    requires forall r :: r in m ==> !r.says.rtype.TaskAssigned?
    ensures NewestAssignment(l + m, t, owner) == NewestAssignment(l, t, owner)
  {
    if m == [] {
      assert l + m == l;
    } else {
      var n := |m| - 1;
      assert (l + m)[..|l + m| - 1] == l + m[..n];
      ObligationStays(l, m[..n], t, owner);
    }
  }

  /** The acceptance of `t` under lease `l`, addressed to whom the obligation of `t` is addressed. */
  function AcceptanceOf(l: Rows, t: TaskId, owner: Principal, lease: LeaseId, w: WorkerId, caps: set<string>,
                        trace: string): Statement {
    var o := Obligation(l, t, owner);
    Statement(TaskAccepted, Principal(Worker, w), if o.Some? then l[o.value].says.to else owner, Some(t),
              Some(lease), if o.Some? then [o.value] else [], AcceptedBody(caps), trace)
  }

  /** One acceptance per claimed task, in order, under consecutive leases. */
  function Acceptances(l: Rows, now: Time, tasks: map<TaskId, Task>, first: LeaseId, ts: seq<TaskId>, w: WorkerId,
                       caps: set<string>, trace: string): (m: Rows)
    requires forall t :: t in ts ==> t in tasks
    ensures |m| == |ts|
  {
    if ts == [] then []
    else
      var n := |ts| - 1;
      Acceptances(l, now, tasks, first, ts[..n], w, caps, trace) +
      [Receipt(|l| + n, now, AcceptanceOf(l, ts[n], tasks[ts[n]].owner, first + n, w, caps, trace), true)]
  }

  lemma {:induction false} AcceptancesSay(l: Rows, now: Time, tasks: map<TaskId, Task>, first: LeaseId, ts: seq<TaskId>,
                                          w: WorkerId, caps: set<string>, trace: string, r: Receipt)
    requires forall t :: t in ts ==> t in tasks
    requires r in Acceptances(l, now, tasks, first, ts, w, caps, trace)
    ensures r.says.rtype.TaskAccepted? && r.says.lease.Some? && r.says.lease.value < first + |ts|
  {
    hide Obligation;
    var n := |ts| - 1;
    if r in Acceptances(l, now, tasks, first, ts[..n], w, caps, trace) {
      AcceptancesSay(l, now, tasks, first, ts[..n], w, caps, trace, r);
    }
  }

  lemma {:induction false} AcceptedAppends(l: Rows, now: Time, tasks: map<TaskId, Task>, first: LeaseId,
                                           ts: seq<TaskId>, w: WorkerId, caps: set<string>, trace: string,
                                           vs: seq<Verdict>)
    requires forall t :: t in ts ==> t in tasks
    requires forall r :: r in l && r.says.lease.Some? ==> r.says.lease.value < first
    requires Accepted(l, now, tasks, first, ts, w, caps, trace, vs).Some?
    ensures Accepted(l, now, tasks, first, ts, w, caps, trace, vs).value ==
              l + Acceptances(l, now, tasks, first, ts, w, caps, trace)
  {
    hide Obligation, Emit, Stored, AcceptanceOf, AcceptedReceipt;
    if ts == [] {
    } else {
      var n := |ts| - 1;
      AcceptedAppends(l, now, tasks, first, ts[..n], w, caps, trace, vs);
      var m := Acceptances(l, now, tasks, first, ts[..n], w, caps, trace);
      forall r | r in m
        ensures r.says.rtype.TaskAccepted? && r.says.lease.Some? && r.says.lease.value < first + n
      {
        AcceptancesSay(l, now, tasks, first, ts[..n], w, caps, trace, r);
      }
      AcceptOnTop(l, m, ts[n], tasks[ts[n]], first + n, w, caps, trace);
      var d := AcceptanceOf(l, ts[n], tasks[ts[n]].owner, first + n, w, caps, trace);
      FreshAppends(l + m, d, now, VerdictAt(vs, n));
    }
  }

  lemma AcceptOnTop(l: Rows, m: Rows, t: TaskId, row: Task, lease: LeaseId, w: WorkerId, caps: set<string>,
                    trace: string)
    requires forall r :: r in m ==> r.says.rtype.TaskAccepted? && r.says.lease.Some? && r.says.lease.value < lease
    requires forall r :: r in l && r.says.lease.Some? ==> r.says.lease.value < lease
    ensures AcceptedReceipt(l + m, t, row, lease, w, caps, trace) ==
              AcceptanceOf(l, t, row.owner, lease, w, caps, trace)
    ensures !Stored(l + m, AcceptanceOf(l, t, row.owner, lease, w, caps, trace))
    ensures AcceptanceOf(l, t, row.owner, lease, w, caps, trace).rtype.TaskAccepted?
  {
    hide NewestAssignment, Stored;
    ObligationStays(l, m, t, Some(row.owner));
    ObligationStays(l, m, t, None);
    NotStored(l + m, AcceptanceOf(l, t, row.owner, lease, w, caps, trace));
  }

  lemma FreshAppends(l: Rows, d: Statement, now: Time, v: Verdict)
    requires !Stored(l, d) && Emit(l, d, now, v).Some? && !d.rtype.TaskCompleted?
    ensures Emit(l, d, now, v).value == l + [Receipt(|l|, now, d, true)]
  {
    hide Stored, Linked, Proceeds;
  }

  lemma {:induction false} AcceptancesAt(l: Rows, now: Time, tasks: map<TaskId, Task>, first: LeaseId, ts: seq<TaskId>,
                                         w: WorkerId, caps: set<string>, trace: string, i: nat)
    requires (forall t :: t in ts ==> t in tasks) && i < |ts|
    ensures Acceptances(l, now, tasks, first, ts, w, caps, trace)[i] ==
              Receipt(|l| + i, now, AcceptanceOf(l, ts[i], tasks[ts[i]].owner, first + i, w, caps, trace), true)
  {
    hide AcceptanceOf;
    var n := |ts| - 1;
    if i < n {
      AcceptancesAt(l, now, tasks, first, ts[..n], w, caps, trace, i);
    }
  }

  lemma {:induction false} LeaseAt(c: Config, now: Time, leases: map<LeaseId, Lease>, first: LeaseId, ts: seq<TaskId>,
                                   w: WorkerId, ttl: Option<int>, i: nat)
    requires i < |ts|
    ensures var ls := ClaimedLeases(c, now, leases, first, ts, w, ttl);
            first + i in ls && ls[first + i] == NewLease(c, now, ts[i], w, ttl)
  {
    hide NewLease;
    var n := |ts| - 1;
    if i < n {
      LeaseAt(c, now, leases, first, ts[..n], w, ttl, i);
    }
  }

  lemma LeasesBelow(s: State)
    requires Records(s)
    ensures forall r :: r in s.ledger && r.says.lease.Some? ==> r.says.lease.value < s.nextLease
  {
    forall r | r in s.ledger && r.says.lease.Some? ensures r.says.lease.value < s.nextLease {
      var i :| 0 <= i < |s.ledger| && s.ledger[i] == r;
      assert RowFits(s, i);
    }
  }

  /** A committed claim of the tasks that match the offered capabilities among those selected: at most
      ten, and no more than asked for. Each becomes LEASED under a new lease of this worker that lasts
      the requested or default ttl, up to the maximum, and has its acceptance sent, in order, from the
      worker to whom its obligation is addressed. Nothing else changes. */
  lemma Claimed(c: Config, s: State, w: WorkerId, caps: set<string>, types: set<string>, max: int,
                ttl: Option<int>, sel: seq<TaskId>, trace: string, vs: seq<Verdict>)
    requires Reachable(c, s) && LeaseNext(c, s, w, caps, types, max, ttl, sel, trace, vs).reply.Ok?
    ensures var ts := Matching(s.tasks, sel, caps);
            && |ts| <= max && |ts| <= 10
            && (forall t :: t in ts ==> t in s.tasks && t in sel && s.tasks[t].capabilities <= caps)
            && (forall i, j :: 0 <= i < j < |ts| ==> ts[i] != ts[j])
    ensures var s', ts := LeaseNext(c, s, w, caps, types, max, ttl, sel, trace, vs).state, Matching(s.tasks, sel, caps);
            && s'.tasks == (map t | t in s.tasks :: if t in ts then s.tasks[t].(status := Leased) else s.tasks[t])
            && s'.ledger == s.ledger + Acceptances(s.ledger, s.now, s.tasks, s.nextLease, ts, w, caps, trace)
            && s' == s.(tasks := s'.tasks, leases := s'.leases, ledger := s'.ledger, nextLease := s.nextLease + |ts|)
    ensures var s', ts := LeaseNext(c, s, w, caps, types, max, ttl, sel, trace, vs).state, Matching(s.tasks, sel, caps);
            var asked := if ttl.Some? && ttl.value != 0 then ttl.value else c.defaultLeaseTtl;
            var length := if asked <= c.maxLeaseTtl then asked else c.maxLeaseTtl;
            && (forall l :: l in s.leases ==> l in s'.leases && s'.leases[l] == s.leases[l])
            && (forall l :: l in s'.leases ==> l in s.leases || s.nextLease <= l < s.nextLease + |ts|)
            && (forall l :: s.nextLease <= l < s.nextLease + |ts| ==>
                  l in s'.leases &&
                  s'.leases[l] == Lease(ts[l - s.nextLease], w, s.now + length * 1_000_000, s.now, 0))
  {
    hide Reachable, Inv, LeaseNext, Acceptances, Matching, ClaimedLeases, Tables, Records;
    ReachableInv(c, s);
    InvParts(c, s);
    ClaimedWhich(c, s, w, caps, types, max, ttl, sel, trace, vs);
    ClaimIs(c, s, w, caps, types, max, ttl, sel, trace, vs);
    LeasesAfter(c, s, Matching(s.tasks, sel, caps), w, ttl);
  }

  lemma LeasesAfter(c: Config, s: State, ts: seq<TaskId>, w: WorkerId, ttl: Option<int>)
    requires Tables(s)
    ensures var ls := ClaimedLeases(c, s.now, s.leases, s.nextLease, ts, w, ttl);
            var asked := if ttl.Some? && ttl.value != 0 then ttl.value else c.defaultLeaseTtl;
            var length := if asked <= c.maxLeaseTtl then asked else c.maxLeaseTtl;
            && (forall l :: l in s.leases ==> l in ls && ls[l] == s.leases[l])
            && (forall l :: l in ls ==> l in s.leases || s.nextLease <= l < s.nextLease + |ts|)
            && (forall l :: s.nextLease <= l < s.nextLease + |ts| ==>
                  l in ls && ls[l] == Lease(ts[l - s.nextLease], w, s.now + length * 1_000_000, s.now, 0))
  {
    hide ClaimedLeases, Tables;
    LeasesElsewhere(c, s.now, s.leases, s.nextLease, ts, w, ttl);
    IssuedBelow(s);
    forall l | s.nextLease <= l < s.nextLease + |ts|
      ensures var ls := ClaimedLeases(c, s.now, s.leases, s.nextLease, ts, w, ttl);
              l in ls && ls[l] == NewLease(c, s.now, ts[l - s.nextLease], w, ttl)
    {
      LeaseAt(c, s.now, s.leases, s.nextLease, ts, w, ttl, l - s.nextLease);
    }
  }

  lemma ClaimedWhich(c: Config, s: State, w: WorkerId, caps: set<string>, types: set<string>, max: int,
                     ttl: Option<int>, sel: seq<TaskId>, trace: string, vs: seq<Verdict>)
    requires LeaseNext(c, s, w, caps, types, max, ttl, sel, trace, vs).reply.Ok?
    ensures var ts := Matching(s.tasks, sel, caps);
            && |ts| <= |sel| <= max && |ts| <= |sel| <= 10
            && (forall t :: t in ts ==> t in s.tasks && t in sel && s.tasks[t].capabilities <= caps)
            && (forall i, j :: 0 <= i < j < |ts| ==> ts[i] != ts[j])
  {
    hide GrantAll, Matching;
    MatchingSize(s.tasks, sel, caps);
  }

  lemma ClaimIs(c: Config, s: State, w: WorkerId, caps: set<string>, types: set<string>, max: int,
                ttl: Option<int>, sel: seq<TaskId>, trace: string, vs: seq<Verdict>)
    requires Inv(c, s) && LeaseNext(c, s, w, caps, types, max, ttl, sel, trace, vs).reply.Ok?
    ensures var ts := Matching(s.tasks, sel, caps);
            && (forall t :: t in ts ==> t in s.tasks)
            && LeaseNext(c, s, w, caps, types, max, ttl, sel, trace, vs).state ==
                 s.(tasks := ClaimedTasks(s.tasks, ts), nextLease := s.nextLease + |ts|,
                    ledger := s.ledger + Acceptances(s.ledger, s.now, s.tasks, s.nextLease, ts, w, caps, trace),
                    leases := ClaimedLeases(c, s.now, s.leases, s.nextLease, ts, w, ttl))
  {
    hide Inv, GrantAll, Accepted, Acceptances, Matching, IsSelection, ClaimedLeases, ClaimedTasks, Tables, Records;
    InvParts(c, s);
    var ts := Matching(s.tasks, sel, caps);
    ClaimThenAccept(c, s, ts, w, caps, ttl, trace, vs);
    LeasesBelow(s);
    AcceptedAppends(s.ledger, s.now, s.tasks, s.nextLease, ts, w, caps, trace, vs);
  }

  lemma IssuedBelow(s: State)
    requires Tables(s)
    ensures forall l :: l in s.leases ==> l < s.nextLease
  {
  }

  lemma {:induction false} MatchingSize(tasks: map<TaskId, Task>, sel: seq<TaskId>, caps: set<string>)
    ensures |Matching(tasks, sel, caps)| <= |sel|
  {
    if sel == [] {
    } else {
      MatchingSize(tasks, sel[..|sel| - 1], caps);
    }
  }

  /** When the query returns fewer rows than the limit, every waiting task that is eligible, of an
      accepted type and within the capabilities is claimed. */
  lemma ClaimsAllThereIs(c: Config, s: State, w: WorkerId, caps: set<string>, types: set<string>, max: int,
                         ttl: Option<int>, sel: seq<TaskId>, trace: string, vs: seq<Verdict>, t: TaskId)
    requires Reachable(c, s) && LeaseNext(c, s, w, caps, types, max, ttl, sel, trace, vs).reply.Ok?
    requires |sel| < max && |sel| < 10
    requires t in s.tasks && s.tasks[t].status.Queued? && s.tasks[t].capabilities <= caps
    requires s.tasks[t].nextEligibleAt.Some? ==> s.tasks[t].nextEligibleAt.value <= s.now
    requires types == {} || s.tasks[t].taskType in types
    ensures t in LeaseNext(c, s, w, caps, types, max, ttl, sel, trace, vs).state.tasks
    ensures LeaseNext(c, s, w, caps, types, max, ttl, sel, trace, vs).state.tasks[t].status.Leased?
  {
    hide Reachable, GrantAll, Matching, Acceptances;
    Claimed(c, s, w, caps, types, max, ttl, sel, trace, vs);
    assert Eligible(s, t, types);
  }

  // ---------------------------------------------------------------------------------------
  // Holding a lease
  // ---------------------------------------------------------------------------------------

  /** A renewal is granted exactly to the holder of a lease on an active task that has renewals left
      and has lived less than the maximum lifetime, expired or not. The lease then ends the requested
      or default time from now, up to the maximum ttl, and nothing else changes. */
  lemma RenewedIff(c: Config, s: State, t: TaskId, l: LeaseId, w: WorkerId, extend: Option<int>)
    requires Reachable(c, s)
    ensures RenewLease(c, s, t, l, w, extend).reply.Ok? <==>
              && t in s.tasks && s.tasks[t].status in {Leased, Running}
              && l in s.leases && s.leases[l].task == t && s.leases[l].worker == w
              && s.leases[l].renewals < c.maxLeaseRenewals
              && s.now - s.leases[l].acquiredAt < c.maxLeaseLifetime * 1_000_000
    ensures RenewLease(c, s, t, l, w, extend).reply.Ok? ==>
              var asked := if extend.Some? && extend.value != 0 then extend.value else c.defaultLeaseTtl;
              var length := if asked <= c.maxLeaseTtl then asked else c.maxLeaseTtl;
              RenewLease(c, s, t, l, w, extend).state ==
                s.(leases := s.leases[l := s.leases[l].(expiresAt := s.now + length * 1_000_000,
                                                        renewals := s.leases[l].renewals + 1)])
  {
    hide Reachable, Tables, Records, Accounts, Pending;
    ReachableInv(c, s);
    if l in s.leases {
      WholeSeconds(s.now - s.leases[l].acquiredAt, c.maxLeaseLifetime);
    }
  }

  lemma WholeSeconds(age: int, limit: int)
    requires age >= 0
    ensures age / 1_000_000 >= limit <==> age >= limit * 1_000_000
  {
  }

  /** Every task of a reachable state has an obligation. */
  lemma HasObligation(c: Config, s: State, t: TaskId)
    requires Reachable(c, s) && t in s.tasks
    ensures Obligation(s.ledger, t, s.tasks[t].owner).Some?
  {
    hide Reachable, Tables, Accounts, Pending, Lifetimes, Obligation;
    ReachableInv(c, s);
    assert Obligation(s.ledger, t, s.tasks[t].owner).Some?;
  }

  /** The addressee of a task's obligation. */
  function Addressee(s: State, t: TaskId): Principal
    requires t in s.tasks && Obligation(s.ledger, t, s.tasks[t].owner).Some?
  {
    s.ledger[Obligation(s.ledger, t, s.tasks[t].owner).value].says.to
  }

  /** The task after its start: RUNNING, since the time it was first started. */
  function StartedRow(row: Task, now: Time): Task {
    row.(status := Running, startedAt := if row.startedAt.Some? then row.startedAt else Some(now))
  }

  lemma MarkedRunning(c: Config, s: State, t: TaskId, l: LeaseId, w: WorkerId, trace: string, v: Verdict)
    requires Reachable(c, s) && Validates(s, t, l, w) && t in s.tasks && s.tasks[t].status.Leased?
    requires MarkRunning(s, t, l, w, trace, v).Some?
    ensures Obligation(s.ledger, t, s.tasks[t].owner).Some?
    ensures var o, row := Obligation(s.ledger, t, s.tasks[t].owner).value, StartedRow(s.tasks[t], s.now);
            MarkRunning(s, t, l, w, trace, v).value ==
              s.(tasks := s.tasks[t := row],
                 ledger := s.ledger +
                   [Receipt(|s.ledger|, s.now,
                            Statement(TaskStarted, Principal(Worker, w), Addressee(s, t), Some(t), Some(l), [o],
                                      StartedBody(row.startedAt.value), trace), true)])
  {
    hide Reachable, Inv, Obligation, Emit, Stored, Records, LeaseMatchesStatus, IdsIssued, Accounts, Pending;
    HasObligation(c, s, t);
    ReachableInv(c, s);
    InvParts(c, s);
    var d := FromHolder(s.ledger, TaskStarted, t, s.tasks[t], l, w, StartedBody(StartedAt(s, t)), trace);
    StartIsNew(s, d);
    FreshAppends(s.ledger, d, s.now, v);
    assert s.leases - {} == s.leases;
  }

  /** Starting is granted exactly to the holder of an unexpired lease on a task that is LEASED or
      RUNNING, if no emission raises. It makes a leased task RUNNING and tells the obligation's
      addressee; a running one it leaves alone. */
  lemma StartedBy(c: Config, s: State, t: TaskId, l: LeaseId, w: WorkerId, trace: string, v: Verdict)
    requires Reachable(c, s) && StartTask(s, t, l, w, trace, v).reply.Ok?
    ensures l in s.leases && s.leases[l].task == t && s.leases[l].worker == w && s.now < s.leases[l].expiresAt
    ensures t in s.tasks && s.tasks[t].status in {Leased, Running} && Obligation(s.ledger, t, s.tasks[t].owner).Some?
    ensures var o, row := Obligation(s.ledger, t, s.tasks[t].owner).value, StartedRow(s.tasks[t], s.now);
            StartTask(s, t, l, w, trace, v).state ==
              if s.tasks[t].status.Running? then s
              else s.(tasks := s.tasks[t := row],
                      ledger := s.ledger +
                        [Receipt(|s.ledger|, s.now,
                                 Statement(TaskStarted, Principal(Worker, w), Addressee(s, t), Some(t), Some(l), [o],
                                           StartedBody(row.startedAt.value), trace), true)])
  {
    hide Reachable, Obligation, MarkRunning, Addressee;
    HasObligation(c, s, t);
    if s.tasks[t].status.Leased? {
      MarkedRunning(c, s, t, l, w, trace, v);
    }
  }

  /** Reporting progress starts a leased task first, and then tells the obligation's addressee, unless
      the very same report is already on the ledger. */
  lemma ProgressedBy(c: Config, s: State, t: TaskId, l: LeaseId, w: WorkerId, data: string, trace: string,
                     v: Verdict, v': Verdict)
    requires Reachable(c, s) && ReportProgress(s, t, l, w, data, trace, v, v').reply.Ok?
    ensures l in s.leases && s.leases[l].task == t && s.leases[l].worker == w && s.now < s.leases[l].expiresAt
    ensures t in s.tasks && Obligation(s.ledger, t, s.tasks[t].owner).Some?
    ensures var o := Obligation(s.ledger, t, s.tasks[t].owner).value;
            var mid := if s.tasks[t].status.Leased? then StartTask(s, t, l, w, trace, v).state else s;
            var d := Statement(TaskProgress, Principal(Worker, w), Addressee(s, t), Some(t), Some(l), [o],
                               ProgressBody(data), trace);
            var rows := mid.ledger;
            var repeated := exists i :: 0 <= i < |rows| && rows[i].hashed && Hash(rows[i].says) == Hash(d);
            ReportProgress(s, t, l, w, data, trace, v, v').state ==
              if repeated then mid else mid.(ledger := rows + [Receipt(|rows|, s.now, d, true)])
  {
    hide Reachable, Obligation, StartTask, ReportProgress, Emit;
    ProgressParts(s, t, l, w, data, trace, v, v');
    HasObligation(c, s, t);
    var mid := if s.tasks[t].status.Leased? then StartTask(s, t, l, w, trace, v).state else s;
    var d := FromHolder(s.ledger, TaskProgress, t, s.tasks[t], l, w, ProgressBody(data), trace);
    EmissionAppends(mid.ledger, d, s.now, v');
  }

  lemma ProgressParts(s: State, t: TaskId, l: LeaseId, w: WorkerId, data: string, trace: string, v: Verdict,
                      v': Verdict)
    requires ReportProgress(s, t, l, w, data, trace, v, v').reply.Ok?
    ensures l in s.leases && s.leases[l].task == t && s.leases[l].worker == w && s.now < s.leases[l].expiresAt
    ensures t in s.tasks
    ensures var mid := if s.tasks[t].status.Leased? then StartTask(s, t, l, w, trace, v).state else s;
            var d := FromHolder(s.ledger, TaskProgress, t, s.tasks[t], l, w, ProgressBody(data), trace);
            && Emit(mid.ledger, d, s.now, v').Some?
            && ReportProgress(s, t, l, w, data, trace, v, v').state ==
                 mid.(ledger := Emit(mid.ledger, d, s.now, v').value)
  {
    hide MarkRunning, Emit, FromHolder;
  }

  /** The pre-read of `complete` passes exactly the holder of an unexpired lease under a new call id,
      and remembers what it was given and the obligation it found. */
  lemma CompleteBegun(c: Config, s: State, k: CallId, t: TaskId, l: LeaseId, w: WorkerId, payload: string,
                      artifacts: Option<Artifacts>)
    requires Reachable(c, s)
    ensures BeginComplete(s, k, t, l, w, payload, artifacts).reply.Ok? <==>
              k !in s.calls && l in s.leases && s.leases[l].task == t && s.leases[l].worker == w
              && s.now < s.leases[l].expiresAt
    ensures BeginComplete(s, k, t, l, w, payload, artifacts).reply.Ok? ==>
              && t in s.tasks && Obligation(s.ledger, t, s.tasks[t].owner).Some?
              && BeginComplete(s, k, t, l, w, payload, artifacts).state ==
                   s.(calls := s.calls[k := CompleteCall(w, t, l, payload, artifacts,
                                                         Obligation(s.ledger, t, s.tasks[t].owner).value,
                                                         Addressee(s, t))])
  {
    hide Reachable, Obligation;
    if k !in s.calls && Validates(s, t, l, w) {
      HolderMayBegin(c, s, k, t, l, w, payload, artifacts, false);
    }
  }

  /** So does that of `fail`, which also decides whether there will be another attempt. */
  lemma FailBegun(c: Config, s: State, k: CallId, t: TaskId, l: LeaseId, w: WorkerId, error: string, retryable: bool)
    requires Reachable(c, s)
    ensures BeginFail(s, k, t, l, w, error, retryable).reply.Ok? <==>
              k !in s.calls && l in s.leases && s.leases[l].task == t && s.leases[l].worker == w
              && s.now < s.leases[l].expiresAt
    ensures BeginFail(s, k, t, l, w, error, retryable).reply.Ok? ==>
              && t in s.tasks && Obligation(s.ledger, t, s.tasks[t].owner).Some?
              && BeginFail(s, k, t, l, w, error, retryable).state ==
                   s.(calls := s.calls[k := FailCall(w, t, l, error, retryable,
                                                     retryable && s.tasks[t].attempt + 1 < s.tasks[t].maxAttempts,
                                                     Obligation(s.ledger, t, s.tasks[t].owner).value, Addressee(s, t))])
  {
    hide Reachable, Obligation;
    if k !in s.calls && Validates(s, t, l, w) {
      HolderMayBegin(c, s, k, t, l, w, error, None, retryable);
    }
  }

  // ---------------------------------------------------------------------------------------
  // Losing a lease
  // ---------------------------------------------------------------------------------------

  /** A committed expiry takes a lease that is past its end, on a task of this instance, and queues the
      task: eligible again after the jitter, without a start time, its attempt unchanged. The service
      tells the obligation's addressee; where escalation is on, the worker that lost the lease tells the
      escalation target, or without one that addressee, unless the same has been said before. */
  lemma ExpiredLease(c: Config, s: State, l: LeaseId, jitter: nat, trace: string, v: Verdict, w: Verdict)
    requires Reachable(c, s) && ExpireLease(c, s, l, jitter, trace, v, w).reply.Ok?
    ensures l in s.leases && s.leases[l].expiresAt < s.now && s.leases[l].task in s.tasks
    ensures c.instance == "" || s.tasks[s.leases[l].task].instance == c.instance
    ensures Obligation(s.ledger, s.leases[l].task, s.tasks[s.leases[l].task].owner).Some?
    ensures var lease, t, n := s.leases[l], s.leases[l].task, |s.ledger|;
            var row, o, s' := s.tasks[t], Obligation(s.ledger, t, s.tasks[t].owner).value,
                              ExpireLease(c, s, l, jitter, trace, v, w).state;
            var expired := Statement(LeaseExpired, SERVICE, Addressee(s, t), Some(t), Some(l), [o],
                                     ExpiredBody(lease.worker, row.attempt), trace);
            var target := if c.escalationTarget.Some? then c.escalationTarget.value else Addressee(s, t);
            var raised := Statement(TaskEscalated, Principal(Worker, lease.worker), target, Some(t), Some(l), [o],
                                    EscalatedBody("lease_expired", target.id), trace);
            var rows := s.ledger + [Receipt(n, s.now, expired, true)];
            var repeated := exists i :: 0 <= i <= n && rows[i].hashed && Hash(rows[i].says) == Hash(raised);
            && s'.tasks == s.tasks[t := row.(status := Queued, nextEligibleAt := Some(s.now + jitter),
                                             startedAt := None)]
            && s'.leases == s.leases - {l}
            && s'.ledger == if !c.escalationEnabled || repeated then rows
                            else rows + [Receipt(n + 1, s.now, raised, true)]
  {
    hide Reachable, Inv, Obligation, Records, Accounts, Stored, Emit;
    ReachableInv(c, s);
    InvParts(c, s);
    var t := s.leases[l].task;
    HasObligation(c, s, t);
    var d := ExpiredReceipt(s.ledger, t, s.tasks[t], l, s.leases[l], trace);
    ExitIsNew(s, t, d);
    FreshAppends(s.ledger, d, s.now, v);
    var rows := s.ledger + [Receipt(|s.ledger|, s.now, d, true)];
    if c.escalationEnabled {
      EmissionAppends(rows, Escalation(c, s.ledger, t, s.tasks[t], l, s.leases[l], trace).value, s.now, w);
    }
  }

  // ---------------------------------------------------------------------------------------
  // The assignment of the owner
  // ---------------------------------------------------------------------------------------

  /** Some assignment of the task is addressed to the owner in its row. */
  ghost predicate Owned(s: State, t: TaskId)
    requires t in s.tasks
  {
    exists i :: 0 <= i < |s.ledger| && s.ledger[i].says.rtype.TaskAssigned? && s.ledger[i].says.task == Some(t)
                && s.ledger[i].says.to == s.tasks[t].owner
  }

  lemma CompleteInsertsNothing(s: State, k: Call, trace: string, v: Verdict, w: Verdict)
    requires k.CompleteCall?
    ensures Complete(s, k, trace, v, w).state.tasks.Keys == s.tasks.Keys
  {
    hide Settle, ResultReady, CompletedReceipt, Finished, Validates;
    var s' := Complete(s, k, trace, v, w).state;
    if s' != s {
      assert s'.tasks == s.tasks[k.task := Finished(s.tasks[k.task], Succeeded, k.artifacts, k.payload, s.now)];
    }
  }

  lemma FailInsertsNothing(c: Config, s: State, k: Call, trace: string, v: Verdict, w: Verdict)
    requires k.FailCall?
    ensures Fail(c, s, k, trace, v, w).state.tasks.Keys == s.tasks.Keys
  {
    hide Settle, ResultReady, FailedReceipt, RetryReceipt, RequeuedWithBackoff, Finished, Validates;
    var s' := Fail(c, s, k, trace, v, w).state;
    if s' != s {
      var row := if k.requeue then RequeuedWithBackoff(c, s.tasks[k.task], s.now)
                 else Finished(s.tasks[k.task], Failed, None, k.error, s.now);
      assert s'.tasks == s.tasks[k.task := row];
    }
  }

  lemma FinishInsertsNothing(c: Config, s: State, k: CallId, trace: string, v: Verdict, w: Verdict)
    ensures Finish(c, s, k, trace, v, w).state.tasks.Keys == s.tasks.Keys
  {
    hide Complete, Fail;
    if k in s.calls {
      if s.calls[k].CompleteCall? {
        CompleteInsertsNothing(s, s.calls[k], trace, v, w);
      } else {
        FailInsertsNothing(c, s, s.calls[k], trace, v, w);
      }
    }
  }

  lemma ReconcileInsertsNothing(s: State, w: WorkerId, owed: set<TaskId>)
    ensures Reconcile(s, w, owed).tasks.Keys == s.tasks.Keys
  {
  }

  /** Rows come only from creating. */
  lemma OnlyCreatingInserts(c: Config, s: State, step: Step)
    requires !step.DoCreate?
    ensures Next(c, s, step).tasks.Keys == s.tasks.Keys
  {
    hide Settle, Obligation, Emit, GrantAll, Matching, IsSelection, Reconcile, Finish, Validates, FromHolder,
         ResultReady, ExpiredReceipt, Escalation;
    match step {
      case DoFinish(k, trace, v, w) => FinishInsertsNothing(c, s, k, trace, v, w);
      case DoReconcile(w, owed) => ReconcileInsertsNothing(s, w, owed);
      case _ =>
    }
  }

  lemma OwnedStays(s: State, s': State, t: TaskId)
    requires Moves(s, s') && t in s.tasks && Owned(s, t)
    ensures t in s'.tasks && Owned(s', t)
  {
    var i :| 0 <= i < |s.ledger| && s.ledger[i].says.rtype.TaskAssigned? && s.ledger[i].says.task == Some(t)
             && s.ledger[i].says.to == s.tasks[t].owner;
    assert s'.ledger[i] == s.ledger[i];
  }

  lemma OwnedNext(c: Config, s: State, step: Step, t: TaskId)
    requires Reachable(c, s) && (forall u :: u in s.tasks ==> Owned(s, u)) && t in Next(c, s, step).tasks
    ensures Owned(Next(c, s, step), t)
  {
    hide Reachable, Inv, Moves, Owned, CreateTask;
    ReachableInv(c, s);
    NextMoves(c, s, step);
    if t in s.tasks {
      OwnedStays(s, Next(c, s, step), t);
    } else if step.DoCreate? {
      NewTaskOwned(c, s, step.req, step.v, t);
    } else {
      OnlyCreatingInserts(c, s, step);
    }
  }

  lemma RepeatInsertsNothing(c: Config, s: State, r: NewTask, v: Verdict)
    requires IdsIssued(s) && r.key.Some? && r.key.value in s.keys
    ensures CreateTask(c, s, r, v).state.tasks == s.tasks
  {
    hide Emit, AssignedReceipt;
  }

  lemma RefusedInsertsNothing(c: Config, s: State, r: NewTask, v: Verdict)
    requires !CreateTask(c, s, r, v).reply.Ok?
    ensures CreateTask(c, s, r, v).state == s
  {
    hide Emit, AssignedReceipt, NewRow;
  }

  lemma NewTaskOwned(c: Config, s: State, r: NewTask, v: Verdict, t: TaskId)
    requires Reachable(c, s) && t !in s.tasks && t in CreateTask(c, s, r, v).state.tasks
    ensures Owned(CreateTask(c, s, r, v).state, t)
  {
    hide Reachable, Inv, CreateTask, Tables, Records;
    ReachableInv(c, s);
    InvParts(c, s);
    if !CreateTask(c, s, r, v).reply.Ok? {
      RefusedInsertsNothing(c, s, r, v);
    } else if r.key.Some? && r.key.value in s.keys {
      RepeatInsertsNothing(c, s, r, v);
    } else {
      Created(c, s, r, v);
      var s' := CreateTask(c, s, r, v).state;
      assert s'.ledger[|s.ledger|].says.to == s'.tasks[t].owner;
    }
  }

  lemma {:induction false} OwnedThroughout(c: Config, now: Time, steps: seq<Step>, t: TaskId)
    requires t in Run(c, Init(now), steps).tasks
    ensures Owned(Run(c, Init(now), steps), t)
    decreases |steps|
  {
    hide Owned, Next;
    if steps == [] {
    } else {
      var n := |steps| - 1;
      forall u | u in Run(c, Init(now), steps[..n]).tasks ensures Owned(Run(c, Init(now), steps[..n]), u) {
        OwnedThroughout(c, now, steps[..n], u);
      }
      ReachedBy(c, now, steps[..n]);
      OwnedNext(c, Run(c, Init(now), steps[..n]), steps[n], t);
    }
  }

  /** In every reachable state each task has an assignment addressed to its owner. */
  lemma OwnerIsAssigned(c: Config, s: State, t: TaskId)
    requires Reachable(c, s) && t in s.tasks
    ensures exists i :: 0 <= i < |s.ledger| && s.ledger[i].says.rtype.TaskAssigned? && s.ledger[i].says.task == Some(t)
                        && s.ledger[i].says.to == s.tasks[t].owner
  {
    hide Run, Init;
    var now, steps :| s == Run(c, Init(now), steps);
    OwnedThroughout(c, now, steps, t);
  }
}
