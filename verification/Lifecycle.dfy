/** The task lifecycle as a state machine: tables, ledger and clock, one step per serialised
    engine call, and two steps for `complete` and `fail`, whose unlocked pre-read and locked
    phase may be separated by anything. */
module Lifecycle {
  import opened Domain
  import opened Ledger

  // ---------------------------------------------------------------------------------------
  // State
  // ---------------------------------------------------------------------------------------

  /** What `complete` and `fail` carry from their pre-read into the locked phase. */
  datatype Call =
    | CompleteCall(worker: WorkerId, task: TaskId, lease: LeaseId, payload: string,
                   artifacts: Option<Artifacts>, obligation: ReceiptId, owner: Principal)
    | FailCall(worker: WorkerId, task: TaskId, lease: LeaseId, error: string, retryable: bool,
               requeue: bool, obligation: ReceiptId, owner: Principal)

  /** `keys` is the unique index on idempotency keys; `calls` are the calls between their two
      phases; `nextTask` and `nextLease` are the supply of never reused ids. */
  datatype State = State(
    now: Time,
    tasks: map<TaskId, Task>,
    leases: map<LeaseId, Lease>,
    ledger: Rows,
    keys: map<string, TaskId>,
    calls: map<CallId, Call>,
    nextTask: TaskId,
    nextLease: LeaseId)

  function Init(now: Time): State { State(now, map[], map[], [], map[], map[], 0, 0) }

  datatype Reply =
    | Ok
    | NotCanceled
    | TaskNotFound
    | Unauthorized
    | DuplicateKey
    | BadRequest
    | LeaseInvalid
    | RenewalLimit
    | LifetimeExceeded
    | InvalidTransition
    | MissingObligation
    | Aborted
    | NoSuchCall

  datatype Outcome = Outcome(state: State, reply: Reply)

  /** A unit of work that either commits as a whole or is rolled back. */
  function Commit(s: State, after: Option<State>): Outcome {
    if after.Some? then Outcome(after.value, Ok) else Outcome(s, Aborted)
  }

  // ---------------------------------------------------------------------------------------
  // Creating and canceling
  // ---------------------------------------------------------------------------------------

  datatype NewTask = NewTask(taskType: string, capabilities: set<string>, owner: Principal,
                             priority: Option<int>, key: Option<string>, maxAttempts: Option<int>,
                             backoffSeconds: Option<int>, delaySeconds: Option<int>, trace: string)

  function NewRow(c: Config, now: Time, r: NewTask): Task {
    Task(r.taskType, r.owner, r.capabilities, OrDefault(r.priority, c.defaultPriority), Queued, 0,
         OrDefault(r.maxAttempts, c.defaultMaxAttempts), OrDefault(r.backoffSeconds, c.defaultBackoff), now,
         if r.delaySeconds.Some? && r.delaySeconds.value != 0 then Some(now + r.delaySeconds.value * SECOND) else None,
         None, None, c.instance)
  }

  function AssignedReceipt(r: NewTask, t: TaskId, row: Task): Statement {
    Statement(TaskAssigned, SERVICE_PRINCIPAL, r.owner, Some(t), None, [],
              AssignedBody(r.taskType, row.capabilities), r.trace)
  }

  /** Inserts the task, or finds the one that already holds the idempotency key; either way a
      task.assigned receipt goes to the caller's owner. */
  function CreateTask(c: Config, s: State, r: NewTask, v: Verdict): Outcome {
    if r.key.Some? && r.key.value in s.keys && s.keys[r.key.value] in s.tasks then
      if r.key.value == "" then Outcome(s, DuplicateKey)
      else
        var t := s.keys[r.key.value];
        var l := Emit(s.ledger, AssignedReceipt(r, t, s.tasks[t]), s.now, v);
        Commit(s, if l.Some? then Some(s.(ledger := l.value)) else None)
    else
      var t := s.nextTask;
      var row := NewRow(c, s.now, r);
      var l := Emit(s.ledger, AssignedReceipt(r, t, row), s.now, v);
      Commit(s, if l.Some? then
                  Some(s.(tasks := s.tasks[t := row], ledger := l.value, nextTask := t + 1,
                          keys := if r.key.Some? then s.keys[r.key.value := t] else s.keys))
                else None)
  }

  /** Every lease on `t`. */
  function LeasesOn(leases: map<LeaseId, Lease>, t: TaskId): set<LeaseId> {
    set l | l in leases && leases[l].task == t
  }

  /** The receipt of a transition, and possibly one more. */
  function EmitTwo(l: Rows, now: Time, d: Statement, v: Verdict, extra: Option<Statement>,
                   w: Verdict): (r: Option<Rows>)
    ensures r.Some? ==> l <= r.value
  {
    var first := Emit(l, d, now, v);
    if first.None? || extra.None? then first else Emit(first.value, extra.value, now, w)
  }

  /** The common end of every operation that takes a task out of a worker's hands or closes it:
      one row rewritten, leases removed, one receipt for the transition and possibly one more. */
  function Settle(s: State, t: TaskId, row: Task, released: set<LeaseId>,
                  d: Statement, v: Verdict, extra: Option<Statement>, w: Verdict): (r: Option<State>)
    ensures r.Some? ==> s.ledger <= r.value.ledger
                        && r.value == s.(tasks := s.tasks[t := row], leases := s.leases - released,
                                         ledger := r.value.ledger)
  {
    var l := EmitTwo(s.ledger, s.now, d, v, extra, w);
    if l.None? then None
    else Some(s.(tasks := s.tasks[t := row], leases := s.leases - released, ledger := l.value))
  }

  function ResultReady(t: TaskId, row: Task, owner: Principal, obligation: ReceiptId, trace: string): Statement {
    Statement(TaskResultReady, SERVICE_PRINCIPAL, owner, Some(t), None, [obligation],
              ResultReadyBody(row.status, if row.result.Some? then row.result.value.artifacts else None), trace)
  }

  function Finished(row: Task, status: TaskStatus, artifacts: Option<Artifacts>, detail: string, now: Time): Task {
    row.(status := status, result := Some(TaskResult(status, artifacts, detail, now)))
  }

  function CancelTask(s: State, t: TaskId, actor: Principal, reason: string, authorized: bool,
                      trace: string, v: Verdict, w: Verdict): Outcome {
    if t !in s.tasks then Outcome(s, TaskNotFound)
    else
      var o := Obligation(s.ledger, t, s.tasks[t].owner);
      if o.None? then Outcome(s, MissingObligation)
      else if !authorized then Outcome(s, Unauthorized)
      else if IsTerminal(s.tasks[t].status) then Outcome(s, NotCanceled)
      else
        var owner := s.ledger[o.value].says.to;
        var row := Finished(s.tasks[t], Canceled, None, reason, s.now);
        var d := Statement(TaskCanceled, actor, owner, Some(t), None, [o.value],
                           CanceledBody(actor, reason, s.now), trace);
        Commit(s, Settle(s, t, row, LeasesOn(s.leases, t), d, v,
                         Some(ResultReady(t, row, owner, o.value, trace)), w))
  }

  // ---------------------------------------------------------------------------------------
  // Claiming
  // ---------------------------------------------------------------------------------------

  predicate EligibleRow(row: Task, now: Time, types: set<string>) {
    && row.status.Queued?
    && (row.nextEligibleAt.Some? ==> row.nextEligibleAt.value <= now)
    && (types != {} ==> row.taskType in types)
  }

  predicate Eligible(s: State, t: TaskId, types: set<string>) {
    t in s.tasks && EligibleRow(s.tasks[t], s.now, types)
  }

  /** Priority descending, then creation time ascending. */
  predicate Precedes(a: Task, b: Task) {
    a.priority > b.priority || (a.priority == b.priority && a.createdAt < b.createdAt)
  }

  /** A worker's capabilities cover what the task asks for. */
  predicate Capable(row: Task, capabilities: set<string>) { row.capabilities <= capabilities }

  /** What `ORDER BY priority DESC, created_at ASC LIMIT n` may return. */
  ghost predicate IsSelection(s: State, types: set<string>, limit: nat, sel: seq<TaskId>) {
    && |sel| <= limit
    && (forall i :: 0 <= i < |sel| ==> Eligible(s, sel[i], types))
    && (forall i, j :: 0 <= i < j < |sel| ==> sel[i] != sel[j])
    && (forall i, j :: 0 <= i < j < |sel| ==> !Precedes(s.tasks[sel[j]], s.tasks[sel[i]]))
    && (forall t :: Eligible(s, t, types) && t !in sel ==>
          |sel| == limit && forall i :: 0 <= i < |sel| ==> !Precedes(s.tasks[t], s.tasks[sel[i]]))
  }

  /** The capability filter, which the service applies after the limit. */
  function Matching(tasks: map<TaskId, Task>, sel: seq<TaskId>, capabilities: set<string>): (m: seq<TaskId>)
    ensures forall t :: t in m <==> t in sel && t in tasks && Capable(tasks[t], capabilities)
    ensures (forall i, j :: 0 <= i < j < |sel| ==> sel[i] != sel[j]) ==>
              (forall i, j :: 0 <= i < j < |m| ==> m[i] != m[j])
  {
    if sel == [] then []
    else
      var n := |sel| - 1;
      Matching(tasks, sel[..n], capabilities) +
      (if sel[n] in tasks && Capable(tasks[sel[n]], capabilities) then [sel[n]] else [])
  }

  function NewLease(c: Config, now: Time, t: TaskId, worker: WorkerId, ttl: Option<int>): Lease {
    Lease(t, worker, now + Min(OrDefault(ttl, c.defaultLeaseTtl), c.maxLeaseTtl) * SECOND, now, 0)
  }

  function AcceptedReceipt(l: Rows, t: TaskId, row: Task, lease: LeaseId, worker: WorkerId,
                           capabilities: set<string>, trace: string): Statement {
    var o := Obligation(l, t, row.owner);
    Statement(TaskAccepted, WorkerPrincipal(worker), if o.Some? then l[o.value].says.to else row.owner,
              Some(t), Some(lease), if o.Some? then [o.value] else [], AcceptedBody(capabilities), trace)
  }

  /** Granting one task: lease row, task row and task.accepted receipt. */
  function Grant(c: Config, s: State, t: TaskId, worker: WorkerId, capabilities: set<string>,
                 ttl: Option<int>, trace: string, v: Verdict): Option<State>
    requires t in s.tasks
  {
    var d := AcceptedReceipt(s.ledger, t, s.tasks[t], s.nextLease, worker, capabilities, trace);
    var l := Emit(s.ledger, d, s.now, v);
    if l.None? then None
    else Some(s.(tasks := s.tasks[t := s.tasks[t].(status := Leased)],
                 leases := s.leases[s.nextLease := NewLease(c, s.now, t, worker, ttl)],
                 ledger := l.value,
                 nextLease := s.nextLease + 1))
  }

  function GrantAll(c: Config, s: State, ts: seq<TaskId>, worker: WorkerId, capabilities: set<string>,
                    ttl: Option<int>, trace: string, vs: seq<Verdict>): (r: Option<State>)
    requires forall t :: t in ts ==> t in s.tasks
    ensures r.Some? ==> r.value.tasks.Keys == s.tasks.Keys
  {
    if ts == [] then Some(s)
    else
      var n := |ts| - 1;
      var before := GrantAll(c, s, ts[..n], worker, capabilities, ttl, trace, vs);
      if before.None? then None
      else Grant(c, before.value, ts[n], worker, capabilities, ttl, trace, VerdictAt(vs, n))
  }

  /** The task rows after a claim: those claimed are LEASED. */
  function ClaimedTasks(tasks: map<TaskId, Task>, ts: seq<TaskId>): map<TaskId, Task> {
    map t | t in tasks :: if t in ts then tasks[t].(status := Leased) else tasks[t]
  }

  /** The lease rows after a claim: one new row per claimed task, with consecutive ids. */
  function ClaimedLeases(c: Config, now: Time, leases: map<LeaseId, Lease>, first: LeaseId, ts: seq<TaskId>,
                         worker: WorkerId, ttl: Option<int>): map<LeaseId, Lease> {
    if ts == [] then leases
    else
      var n := |ts| - 1;
      ClaimedLeases(c, now, leases, first, ts[..n], worker, ttl)[first + n := NewLease(c, now, ts[n], worker, ttl)]
  }

  /** The ledger after a claim: one acceptance per claimed task. */
  function Accepted(l: Rows, now: Time, tasks: map<TaskId, Task>, first: LeaseId, ts: seq<TaskId>, worker: WorkerId,
                    capabilities: set<string>, trace: string, vs: seq<Verdict>): (r: Option<Rows>)
    requires forall t :: t in ts ==> t in tasks
  {
    if ts == [] then Some(l)
    else
      var n := |ts| - 1;
      var before := Accepted(l, now, tasks, first, ts[..n], worker, capabilities, trace, vs);
      if before.None? then None
      else
        var d := AcceptedReceipt(before.value, ts[n], tasks[ts[n]], first + n, worker, capabilities, trace);
        Emit(before.value, d, now, VerdictAt(vs, n))
  }

  /** Claiming all rows first and accepting afterwards, as the service does, is the same as
      granting one task after the other. */
  lemma {:induction false} ClaimThenAccept(c: Config, s: State, ts: seq<TaskId>, worker: WorkerId,
                                           capabilities: set<string>, ttl: Option<int>, trace: string, vs: seq<Verdict>)
    requires forall t :: t in ts ==> t in s.tasks
    ensures GrantAll(c, s, ts, worker, capabilities, ttl, trace, vs) ==
              (var l := Accepted(s.ledger, s.now, s.tasks, s.nextLease, ts, worker, capabilities, trace, vs);
               if l.None? then None
               else Some(s.(tasks := ClaimedTasks(s.tasks, ts), nextLease := s.nextLease + |ts|, ledger := l.value,
                            leases := ClaimedLeases(c, s.now, s.leases, s.nextLease, ts, worker, ttl))))
  {
    hide Emit, Obligation, NewLease;
    if ts == [] {
      assert ClaimedTasks(s.tasks, ts) == s.tasks;
    } else {
      var n := |ts| - 1;
      ClaimThenAccept(c, s, ts[..n], worker, capabilities, ttl, trace, vs);
      ClaimOneMore(s.tasks, ts);
    }
  }

  lemma ClaimOneMore(tasks: map<TaskId, Task>, ts: seq<TaskId>)
    requires ts != [] && forall t :: t in ts ==> t in tasks
    ensures var n := |ts| - 1;
            var before := ClaimedTasks(tasks, ts[..n]);
            && ts[n] in before
            && before[ts[n]].owner == tasks[ts[n]].owner
            && ClaimedTasks(tasks, ts) == before[ts[n] := before[ts[n]].(status := Leased)]
  {
    assert forall t :: t in ts <==> t in ts[..|ts| - 1] || t == ts[|ts| - 1];
  }

  /** The cap on tasks per request. */
  const MAX_CLAIM: int := 10

  /** One claim request. `sel` is the database's answer to the ordered, limited query; a step
      whose `sel` is no possible answer does nothing. */
  ghost function LeaseNext(c: Config, s: State, worker: WorkerId, capabilities: set<string>, types: set<string>,
                           maxTasks: int, ttl: Option<int>, sel: seq<TaskId>, trace: string,
                           vs: seq<Verdict>): Outcome {
    var limit := Min(maxTasks, MAX_CLAIM);
    if limit < 0 || !IsSelection(s, types, limit, sel) then Outcome(s, BadRequest)
    else Commit(s, GrantAll(c, s, Matching(s.tasks, sel, capabilities), worker, capabilities, ttl, trace, vs))
  }

  // ---------------------------------------------------------------------------------------
  // Holding a lease
  // ---------------------------------------------------------------------------------------

  /** The lease exists, belongs to this worker and task, and has not expired. */
  predicate Validates(s: State, t: TaskId, l: LeaseId, w: WorkerId) {
    && l in s.leases
    && s.leases[l].task == t
    && s.leases[l].worker == w
    && s.leases[l].expiresAt > s.now
  }

  /** Whole seconds since the lease was acquired, truncated towards zero. */
  function LifetimeSeconds(now: Time, l: Lease): int {
    if l.acquiredAt <= now then (now - l.acquiredAt) / SECOND else -((l.acquiredAt - now) / SECOND)
  }

  /** Renewal does not ask whether the lease has expired. */
  function RenewLease(c: Config, s: State, t: TaskId, l: LeaseId, w: WorkerId, extend: Option<int>): Outcome {
    if t !in s.tasks then Outcome(s, TaskNotFound)
    else if !IsActive(s.tasks[t].status) then Outcome(s, LeaseInvalid)
    else if l !in s.leases || s.leases[l].task != t || s.leases[l].worker != w then Outcome(s, LeaseInvalid)
    else if s.leases[l].renewals >= c.maxLeaseRenewals then Outcome(s, RenewalLimit)
    else if LifetimeSeconds(s.now, s.leases[l]) >= c.maxLeaseLifetime then Outcome(s, LifetimeExceeded)
    else
      var expires := s.now + Min(OrDefault(extend, c.defaultLeaseTtl), c.maxLeaseTtl) * SECOND;
      var row := s.leases[l].(expiresAt := expires, renewals := s.leases[l].renewals + 1);
      Outcome(s.(leases := s.leases[l := row]), Ok)
  }

  function StartedAt(s: State, t: TaskId): Time
    requires t in s.tasks
  {
    if s.tasks[t].startedAt.Some? then s.tasks[t].startedAt.value else s.now
  }

  /** Receipts a worker sends about a task it holds. */
  function FromHolder(l: Rows, rtype: ReceiptType, t: TaskId, row: Task, lease: LeaseId, worker: WorkerId,
                      body: Body, trace: string): Statement {
    var o := Obligation(l, t, row.owner);
    Statement(rtype, WorkerPrincipal(worker), if o.Some? then l[o.value].says.to else row.owner,
              Some(t), Some(lease), if o.Some? then [o.value] else [], body, trace)
  }

  /** LEASED to RUNNING, with its task.started receipt. */
  function MarkRunning(s: State, t: TaskId, l: LeaseId, w: WorkerId, trace: string, v: Verdict): Option<State>
    requires t in s.tasks
  {
    var started := StartedAt(s, t);
    var d := FromHolder(s.ledger, TaskStarted, t, s.tasks[t], l, w, StartedBody(started), trace);
    Settle(s, t, s.tasks[t].(status := Running, startedAt := Some(started)), {}, d, v, None, v)
  }

  function StartTask(s: State, t: TaskId, l: LeaseId, w: WorkerId, trace: string, v: Verdict): Outcome {
    if !Validates(s, t, l, w) then Outcome(s, LeaseInvalid)
    else if t !in s.tasks then Outcome(s, TaskNotFound)
    else if s.tasks[t].status.Running? then Outcome(s, Ok)
    else if !s.tasks[t].status.Leased? then Outcome(s, InvalidTransition)
    else Commit(s, MarkRunning(s, t, l, w, trace, v))
  }

  /** A progress report starts a leased task first; both receipts commit together. */
  function ReportProgress(s: State, t: TaskId, l: LeaseId, w: WorkerId, data: string, trace: string,
                          v: Verdict, w': Verdict): Outcome {
    if !Validates(s, t, l, w) then Outcome(s, LeaseInvalid)
    else if t !in s.tasks then Outcome(s, TaskNotFound)
    else
      var running := if s.tasks[t].status.Leased? then MarkRunning(s, t, l, w, trace, v) else Some(s);
      if running.None? then Outcome(s, Aborted)
      else
        var r := running.value;
        var d := FromHolder(s.ledger, TaskProgress, t, s.tasks[t], l, w, ProgressBody(data), trace);
        var rows := Emit(r.ledger, d, s.now, w');
        Commit(s, if rows.Some? then Some(r.(ledger := rows.value)) else None)
  }

  // ---------------------------------------------------------------------------------------
  // Completing
  // ---------------------------------------------------------------------------------------

  function BeginComplete(s: State, k: CallId, t: TaskId, l: LeaseId, w: WorkerId, payload: string,
                         artifacts: Option<Artifacts>): Outcome {
    if k in s.calls then Outcome(s, BadRequest)
    else if !Validates(s, t, l, w) then Outcome(s, LeaseInvalid)
    else if t !in s.tasks then Outcome(s, TaskNotFound)
    else if !CanTransition(s.tasks[t].status, Succeeded) then Outcome(s, InvalidTransition)
    else
      var o := Obligation(s.ledger, t, s.tasks[t].owner);
      if o.None? then Outcome(s, MissingObligation)
      else
        var call := CompleteCall(w, t, l, payload, artifacts, o.value, s.ledger[o.value].says.to);
        Outcome(s.(calls := s.calls[k := call]), Ok)
  }

  function CompletedReceipt(c: Call, trace: string): Statement
    requires c.CompleteCall?
  {
    Statement(TaskCompleted, WorkerPrincipal(c.worker), c.owner, Some(c.task), Some(c.lease), [c.obligation],
              CompletedBody(c.payload, c.artifacts, None), trace)
  }

  /** The locked phase: lease and status are checked again, everything else was decided before. */
  function Complete(s: State, c: Call, trace: string, v: Verdict, w: Verdict): Outcome
    requires c.CompleteCall?
  {
    if !Validates(s, c.task, c.lease, c.worker) then Outcome(s, LeaseInvalid)
    else if c.task !in s.tasks then Outcome(s, TaskNotFound)
    else if !CanTransition(s.tasks[c.task].status, Succeeded) then Outcome(s, InvalidTransition)
    else
      var row := Finished(s.tasks[c.task], Succeeded, c.artifacts, c.payload, s.now);
      Commit(s, Settle(s, c.task, row, {c.lease}, CompletedReceipt(c, trace), v,
                       Some(ResultReady(c.task, row, c.owner, c.obligation, trace)), w))
  }

  // ---------------------------------------------------------------------------------------
  // Failing
  // ---------------------------------------------------------------------------------------

  /** Whether a retryable failure still has an attempt left. */
  predicate ShouldRequeue(row: Task, retryable: bool) { retryable && row.attempt + 1 < row.maxAttempts }

  function BeginFail(s: State, k: CallId, t: TaskId, l: LeaseId, w: WorkerId, error: string,
                     retryable: bool): Outcome {
    if k in s.calls then Outcome(s, BadRequest)
    else if !Validates(s, t, l, w) then Outcome(s, LeaseInvalid)
    else if t !in s.tasks then Outcome(s, TaskNotFound)
    else
      var o := Obligation(s.ledger, t, s.tasks[t].owner);
      if o.None? then Outcome(s, MissingObligation)
      else
        var call := FailCall(w, t, l, error, retryable, ShouldRequeue(s.tasks[t], retryable),
                             o.value, s.ledger[o.value].says.to);
        Outcome(s.(calls := s.calls[k := call]), Ok)
  }

  /** Exponential backoff before the next attempt, in seconds. */
  function Backoff(c: Config, row: Task, attempt: nat): int
    requires attempt >= 1
  {
    Min(row.backoffSeconds * Pow2(attempt - 1), c.maxBackoff)
  }

  function RequeuedWithBackoff(c: Config, row: Task, now: Time): Task {
    var attempt := row.attempt + 1;
    row.(status := Queued, attempt := attempt, startedAt := None,
         nextEligibleAt := Some(now + Backoff(c, row, attempt) * SECOND))
  }

  function RequeuedOnExpiry(row: Task, now: Time, jitter: nat): Task {
    row.(status := Queued, nextEligibleAt := Some(now + jitter), startedAt := None)
  }

  function RetryReceipt(c: Call, row: Task, trace: string): Statement
    requires c.FailCall?
  {
    Statement(TaskRetryScheduled, WorkerPrincipal(c.worker), c.owner, Some(c.task), Some(c.lease), [c.obligation],
              RetryBody(c.error, row.attempt, row.maxAttempts, row.nextEligibleAt), trace)
  }

  function FailedReceipt(c: Call, trace: string): Statement
    requires c.FailCall?
  {
    Statement(TaskFailed, WorkerPrincipal(c.worker), c.owner, Some(c.task), Some(c.lease), [c.obligation],
              FailedBody(c.error), trace)
  }

  /** The locked phase of `fail`: only the lease is checked again. The task's status is never
      looked at, and the requeue decision is the one made before the lock. */
  function Fail(c: Config, s: State, k: Call, trace: string, v: Verdict, w: Verdict): Outcome
    requires k.FailCall?
  {
    if !Validates(s, k.task, k.lease, k.worker) then Outcome(s, LeaseInvalid)
    else if k.task !in s.tasks then Outcome(s, TaskNotFound)
    else if k.requeue then
      var row := RequeuedWithBackoff(c, s.tasks[k.task], s.now);
      Commit(s, Settle(s, k.task, row, {k.lease}, RetryReceipt(k, row, trace), v, None, w))
    else
      var row := Finished(s.tasks[k.task], Failed, None, k.error, s.now);
      Commit(s, Settle(s, k.task, row, {k.lease}, FailedReceipt(k, trace), v,
                       Some(ResultReady(k.task, row, k.owner, k.obligation, trace)), w))
  }

  /** A call leaves the table of pending calls however its locked phase ends. */
  function Finish(c: Config, s: State, k: CallId, trace: string, v: Verdict, w: Verdict): Outcome {
    if k !in s.calls then Outcome(s, NoSuchCall)
    else
      var r := match s.calls[k]
               case CompleteCall(_, _, _, _, _, _, _) => Complete(s, s.calls[k], trace, v, w)
               case FailCall(_, _, _, _, _, _, _, _) => Fail(c, s, s.calls[k], trace, v, w);
      r.(state := r.state.(calls := s.calls - {k}))
  }

  // ---------------------------------------------------------------------------------------
  // Expiry, reconciliation, acknowledgement
  // ---------------------------------------------------------------------------------------

  /** What the sweep query returns: leases past their expiry on this instance's active tasks. */
  predicate Expired(c: Config, s: State, l: LeaseId) {
    && l in s.leases
    && s.leases[l].expiresAt < s.now
    && s.leases[l].task in s.tasks
    && IsActive(s.tasks[s.leases[l].task].status)
    && (c.instance != "" ==> s.tasks[s.leases[l].task].instance == c.instance)
  }

  function ExpiredReceipt(l: Rows, t: TaskId, row: Task, id: LeaseId, lease: Lease, trace: string): Statement {
    var o := Obligation(l, t, row.owner);
    Statement(LeaseExpired, SERVICE_PRINCIPAL, if o.Some? then l[o.value].says.to else row.owner, Some(t), Some(id),
              if o.Some? then [o.value] else [], ExpiredBody(lease.worker, row.attempt), trace)
  }

  /** The escalation, when it is enabled, comes from the worker that lost the lease. */
  function Escalation(c: Config, l: Rows, t: TaskId, row: Task, id: LeaseId, lease: Lease,
                      trace: string): Option<Statement> {
    if !c.escalationEnabled then None
    else
      var o := Obligation(l, t, row.owner);
      var fallback := if o.Some? then l[o.value].says.to else row.owner;
      var to := if c.escalationTarget.Some? then c.escalationTarget.value else fallback;
      Some(Statement(TaskEscalated, WorkerPrincipal(lease.worker), to, Some(t), Some(id),
                     if o.Some? then [o.value] else [], EscalatedBody("lease_expired", to.id), trace))
  }

  /** One iteration of the sweep, working on a lease row read earlier. Like the code, it does not
      look at the lease table again. */
  function ExpireBody(c: Config, s: State, id: LeaseId, lease: Lease, jitter: nat, trace: string,
                      v: Verdict, w: Verdict): Outcome {
    var t := lease.task;
    if t !in s.tasks || IsTerminal(s.tasks[t].status) then Outcome(s, TaskNotFound)
    else
      var row := s.tasks[t];
      var released := if id in s.leases && s.leases[id].task == t then {id} else {};
      Commit(s, Settle(s, t, RequeuedOnExpiry(row, s.now, jitter), released,
                       ExpiredReceipt(s.ledger, t, row, id, lease, trace), v,
                       Escalation(c, s.ledger, t, row, id, lease, trace), w))
  }

  /** The iteration on a row the sweep query would return at this very moment. */
  function ExpireLease(c: Config, s: State, l: LeaseId, jitter: nat, trace: string, v: Verdict, w: Verdict): Outcome {
    if !Expired(c, s, l) then Outcome(s, LeaseInvalid)
    else ExpireBody(c, s, l, s.leases[l], jitter, trace, v, w)
  }

  /** The leases of `worker` that the external ledger no longer backs. */
  function Stale(s: State, worker: WorkerId, owed: set<TaskId>): set<LeaseId> {
    set l | l in s.leases && s.leases[l].worker == worker && s.leases[l].task !in owed
  }

  function TasksOf(leases: map<LeaseId, Lease>, ls: set<LeaseId>): set<TaskId>
    requires ls <= leases.Keys
  {
    set l | l in ls :: leases[l].task
  }

  /** Reconciling one worker against the task ids the external ledger says it owes: unbacked
      leases go, and their unfinished tasks return to the queue. No receipt is written, and the
      rest of the row, the start time included, stays as it was. */
  function Reconcile(s: State, worker: WorkerId, owed: set<TaskId>): State {
    var stale := Stale(s, worker, owed);
    var freed := TasksOf(s.leases, stale);
    s.(leases := s.leases - stale,
       tasks := map t | t in s.tasks ::
                  if t in freed && !IsTerminal(s.tasks[t].status) then s.tasks[t].(status := Queued) else s.tasks[t])
  }

  function Acknowledge(s: State, receipt: ReceiptId, actor: Principal, trace: string, v: Verdict): Outcome {
    var d := Statement(ReceiptAcknowledged, actor, SERVICE_PRINCIPAL, None, None, [receipt],
                       AcknowledgedBody(receipt), trace);
    var l := Emit(s.ledger, d, s.now, v);
    Commit(s, if l.Some? then Some(s.(ledger := l.value)) else None)
  }

  // ---------------------------------------------------------------------------------------
  // Runs
  // ---------------------------------------------------------------------------------------

  datatype Step =
    | Tick(at: Time)
    | DoCreate(req: NewTask, v: Verdict)
    | DoCancel(task: TaskId, actor: Principal, reason: string, authorized: bool, trace: string, v: Verdict, w: Verdict)
    | DoLeaseNext(worker: WorkerId, capabilities: set<string>, types: set<string>, maxTasks: int, ttl: Option<int>,
                  sel: seq<TaskId>, trace: string, vs: seq<Verdict>)
    | DoRenew(task: TaskId, lease: LeaseId, worker: WorkerId, extend: Option<int>)
    | DoStart(task: TaskId, lease: LeaseId, worker: WorkerId, trace: string, v: Verdict)
    | DoProgress(task: TaskId, lease: LeaseId, worker: WorkerId, data: string, trace: string, v: Verdict, w: Verdict)
    | DoBeginComplete(call: CallId, task: TaskId, lease: LeaseId, worker: WorkerId, payload: string,
                      artifacts: Option<Artifacts>)
    | DoBeginFail(call: CallId, task: TaskId, lease: LeaseId, worker: WorkerId, error: string, retryable: bool)
    | DoFinish(call: CallId, trace: string, v: Verdict, w: Verdict)
    | DoExpire(lease: LeaseId, jitter: nat, trace: string, v: Verdict, w: Verdict)
    | DoReconcile(worker: WorkerId, owed: set<TaskId>)
    | DoAcknowledge(receipt: ReceiptId, actor: Principal, trace: string, v: Verdict)

  ghost function Apply(c: Config, s: State, step: Step): Outcome {
    match step
    case Tick(at) => Outcome(s.(now := Max(s.now, at)), Ok)
    case DoCreate(r, v) => CreateTask(c, s, r, v)
    case DoCancel(t, actor, reason, authorized, trace, v, w) => CancelTask(s, t, actor, reason, authorized, trace, v, w)
    case DoLeaseNext(worker, caps, types, max, ttl, sel, trace, vs) =>
      LeaseNext(c, s, worker, caps, types, max, ttl, sel, trace, vs)
    case DoRenew(t, l, w, extend) => RenewLease(c, s, t, l, w, extend)
    case DoStart(t, l, w, trace, v) => StartTask(s, t, l, w, trace, v)
    case DoProgress(t, l, worker, data, trace, v, w) => ReportProgress(s, t, l, worker, data, trace, v, w)
    case DoBeginComplete(k, t, l, w, payload, artifacts) => BeginComplete(s, k, t, l, w, payload, artifacts)
    case DoBeginFail(k, t, l, w, error, retryable) => BeginFail(s, k, t, l, w, error, retryable)
    case DoFinish(k, trace, v, w) => Finish(c, s, k, trace, v, w)
    case DoExpire(l, jitter, trace, v, w) => ExpireLease(c, s, l, jitter, trace, v, w)
    case DoReconcile(w, owed) => Outcome(Reconcile(s, w, owed), Ok)
    case DoAcknowledge(r, actor, trace, v) => Acknowledge(s, r, actor, trace, v)
  }

  ghost function Next(c: Config, s: State, step: Step): State { Apply(c, s, step).state }

  /** The state after a sequence of steps, in any interleaving. */
  ghost function Run(c: Config, s: State, steps: seq<Step>): State
    decreases |steps|
  {
    if steps == [] then s
    else Next(c, Run(c, s, steps[..|steps| - 1]), steps[|steps| - 1])
  }

  ghost predicate Reachable(c: Config, s: State) {
    exists now, steps :: s == Run(c, Init(now), steps)
  }
}
