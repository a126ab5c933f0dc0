/** The result_ready receipt: the end of a task leaves exactly one, and it tells the right principal
    the right thing. It is neutral for everything the ledger is replayed for, so this is an invariant
    of its own. */
module Notices {
  import opened Domain
  import opened Ledger
  import opened Lifecycle
  import opened LifecycleInvariant
  import opened LifecycleTheorems
  import opened Guarantees

  // ---------------------------------------------------------------------------------------
  // The invariant
  // ---------------------------------------------------------------------------------------

  /** Row `i`, if it is a result_ready receipt, goes from the service to the addressee of the
      assignment it names, and repeats the status and the artifacts of a task that has ended. */
  ghost predicate NoticeFits(s: State, i: nat)
    requires i < |s.ledger|
  {
    var d := s.ledger[i].says;
    d.rtype.TaskResultReady? ==>
      && d.task.Some? && d.task.value in s.tasks
      && var row := s.tasks[d.task.value];
         && row.status in {Succeeded, Failed, Canceled}
         && d.from == Principal(Service, "svc:asyncgate") && d.lease.None?
         && |d.parents| == 1 && d.parents[0] < i
         && s.ledger[d.parents[0]].says.rtype.TaskAssigned? && s.ledger[d.parents[0]].says.task == d.task
         && s.ledger[d.parents[0]].says.to == d.to
         && d.body == ResultReadyBody(row.status, if row.result.Some? then row.result.value.artifacts else None)
  }

  ghost predicate Told(s: State) {
    && (forall i :: 0 <= i < |s.ledger| ==> NoticeFits(s, i))
    && (forall t :: t in s.tasks ==>
          Count(Of(s.ledger, t), TaskResultReady) == if s.tasks[t].status in {Succeeded, Failed, Canceled} then 1 else 0)
  }

  // ---------------------------------------------------------------------------------------
  // Steps that tell nothing
  // ---------------------------------------------------------------------------------------

  /** From `l` to `l'` no result_ready receipt is added. */
  predicate Silent(l: Rows, l': Rows) {
    l <= l' && forall i :: |l| <= i < |l'| ==> !l'[i].says.rtype.TaskResultReady?
  }

  lemma SilentOn(a: Rows, b: Rows, c: Rows)
    requires Silent(a, b) && Silent(b, c)
    ensures Silent(a, c)
  {
    forall i | |a| <= i < |c| ensures !c[i].says.rtype.TaskResultReady? {
      if i < |b| { assert c[i] == b[i]; }
    }
  }

  lemma EmitSilent(l: Rows, d: Statement, now: Time, v: Verdict)
    requires Emit(l, d, now, v).Some? && !d.rtype.TaskResultReady?
    ensures Silent(l, Emit(l, d, now, v).value)
  {
    hide Stored, Linked, Proceeds;
  }

  lemma EmitTwoSilent(l: Rows, now: Time, d: Statement, v: Verdict, extra: Option<Statement>, w: Verdict)
    requires EmitTwo(l, now, d, v, extra, w).Some?
    requires !d.rtype.TaskResultReady? && (extra.Some? ==> !extra.value.rtype.TaskResultReady?)
    ensures Silent(l, EmitTwo(l, now, d, v, extra, w).value)
  {
    hide Emit, Silent;
    EmitSilent(l, d, now, v);
    if extra.Some? {
      var mid := Emit(l, d, now, v).value;
      EmitSilent(mid, extra.value, now, w);
      SilentOn(l, mid, EmitTwo(l, now, d, v, extra, w).value);
    }
  }

  /** Nothing is told, and no task ends. */
  ghost predicate Quiet(s: State, s': State) {
    && Silent(s.ledger, s'.ledger)
    && s.tasks.Keys <= s'.tasks.Keys
    && forall t :: t in s'.tasks ==>
         if t in s.tasks
         then s'.tasks[t] == s.tasks[t] || (!IsTerminal(s.tasks[t].status) && !IsTerminal(s'.tasks[t].status))
         else !IsTerminal(s'.tasks[t].status)
  }

  lemma {:induction false} CountNone(h: Rows, m: Rows)
    requires forall r :: r in m ==> !r.says.rtype.TaskResultReady?
    ensures Count(h + m, TaskResultReady) == Count(h, TaskResultReady)
  {
    if m == [] {
      assert h + m == h;
    } else {
      var n := |m| - 1;
      CountNone(h, m[..n]);
      FoldAppend(h + m[..n], m[n]);
      assert h + m == h + m[..n] + [m[n]];
    }
  }

  lemma SilentCount(l: Rows, l': Rows, t: TaskId)
    requires Silent(l, l')
    ensures Count(Of(l', t), TaskResultReady) == Count(Of(l, t), TaskResultReady)
  {
    hide Count;
    var m := l'[|l|..];
    assert l' == l + m;
    OfAppend(l, m, t);
    forall r | r in Of(m, t) ensures !r.says.rtype.TaskResultReady? {
      OfMember(m, t, r);
      var i :| 0 <= i < |m| && m[i] == r;
      assert l'[|l| + i] == r;
    }
    CountNone(Of(l, t), Of(m, t));
  }

  lemma NoRowsYet(s: State, t: TaskId)
    requires Records(s) && t !in s.tasks
    ensures Count(Of(s.ledger, t), TaskResultReady) == 0
  {
    forall r | r in s.ledger ensures r.says.task != Some(t) {
      var i :| 0 <= i < |s.ledger| && s.ledger[i] == r;
      assert RowFits(s, i);
    }
    OfNone(s.ledger, t);
  }

  lemma OldNoticeFits(s: State, s': State, i: nat)
    requires i < |s.ledger| && NoticeFits(s, i) && s.ledger <= s'.ledger
    requires forall t :: t in s.tasks && IsTerminal(s.tasks[t].status) ==> t in s'.tasks && s'.tasks[t] == s.tasks[t]
    ensures NoticeFits(s', i)
  {
    assert s'.ledger[i] == s.ledger[i];
    if s.ledger[i].says.rtype.TaskResultReady? {
      assert s'.ledger[s.ledger[i].says.parents[0]] == s.ledger[s.ledger[i].says.parents[0]];
    }
  }

  lemma QuietTold(s: State, s': State)
    requires Records(s) && Told(s) && Quiet(s, s')
    ensures Told(s')
  {
    hide Records, Count, Of, NoticeFits;
    forall i | 0 <= i < |s'.ledger| ensures NoticeFits(s', i) {
      if i < |s.ledger| {
        OldNoticeFits(s, s', i);
      } else {
        OtherFits(s', i);
      }
    }
    forall t | t in s'.tasks
      ensures Count(Of(s'.ledger, t), TaskResultReady) ==
                if s'.tasks[t].status in {Succeeded, Failed, Canceled} then 1 else 0
    {
      SilentCount(s.ledger, s'.ledger, t);
      if t !in s.tasks { NoRowsYet(s, t); }
    }
  }

  lemma OtherFits(s: State, i: nat)
    requires i < |s.ledger| && !s.ledger[i].says.rtype.TaskResultReady?
    ensures NoticeFits(s, i)
  {
  }

  // ---------------------------------------------------------------------------------------
  // Steps that end a task
  // ---------------------------------------------------------------------------------------

  /** Task `t` ends: after other receipts one result_ready receipt `d` about it is appended. */
  ghost predicate Tells(s: State, s': State, t: TaskId, d: Statement) {
    && t in s.tasks && !IsTerminal(s.tasks[t].status)
    && t in s'.tasks && s'.tasks == s.tasks[t := s'.tasks[t]]
    && s'.ledger != [] && s'.ledger[|s'.ledger| - 1].says == d && Silent(s.ledger, s'.ledger[..|s'.ledger| - 1])
    && d.rtype.TaskResultReady? && d.task == Some(t) && NoticeFits(s', |s'.ledger| - 1)
  }

  lemma TellsTold(s: State, s': State, t: TaskId, d: Statement)
    requires Told(s) && Tells(s, s', t, d)
    ensures Told(s')
  {
    hide Count, Of, NoticeFits;
    var n := |s'.ledger| - 1;
    assert s'.tasks[t].status in {Succeeded, Failed, Canceled} by { NoticeOfEnded(s', n); }
    forall i | 0 <= i < |s'.ledger| ensures NoticeFits(s', i) {
      if i < |s.ledger| {
        OldNoticeFits(s, s', i);
      } else if i < n {
        assert s'.ledger[..n][i] == s'.ledger[i];
        OtherFits(s', i);
      }
    }
    forall u | u in s'.tasks
      ensures Count(Of(s'.ledger, u), TaskResultReady) ==
                if s'.tasks[u].status in {Succeeded, Failed, Canceled} then 1 else 0
    {
      SilentCount(s.ledger, s'.ledger[..n], u);
      OneNotice(s'.ledger, u);
    }
  }

  lemma NoticeOfEnded(s: State, i: nat)
    requires i < |s.ledger| && NoticeFits(s, i) && s.ledger[i].says.rtype.TaskResultReady?
    ensures s.ledger[i].says.task.Some? && s.ledger[i].says.task.value in s.tasks
    ensures s.tasks[s.ledger[i].says.task.value].status in {Succeeded, Failed, Canceled}
  {
  }

  lemma OneNotice(l: Rows, t: TaskId)
    requires l != [] && l[|l| - 1].says.rtype.TaskResultReady?
    ensures Count(Of(l, t), TaskResultReady) ==
              Count(Of(l[..|l| - 1], t), TaskResultReady) + if l[|l| - 1].says.task == Some(t) then 1 else 0
  {
    var h := Of(l[..|l| - 1], t);
    if l[|l| - 1].says.task == Some(t) {
      FoldAppend(h, l[|l| - 1]);
    } else {
      assert h + [] == h;
    }
  }

  /** The notice of an unfinished task's end is never taken for a duplicate. */
  lemma NoticeIsNew(s: State, l: Rows, t: TaskId, d: Statement)
    requires Told(s) && t in s.tasks && !IsTerminal(s.tasks[t].status)
    requires Silent(s.ledger, l) && d.rtype.TaskResultReady? && d.task == Some(t)
    ensures !Stored(l, d)
  {
    hide Count, Of;
    forall i | 0 <= i < |l| ensures Hash(l[i].says) != Hash(d) {
      if i < |s.ledger| {
        assert l[i] == s.ledger[i];
        assert NoticeFits(s, i);
      }
    }
  }

  /** What a savepoint that ends a task appends. */
  lemma SettleTells(s: State, t: TaskId, row: Task, released: set<LeaseId>, d: Statement, v: Verdict,
                    e: Statement, w: Verdict)
    requires Told(s) && t in s.tasks && !IsTerminal(s.tasks[t].status)
    requires !d.rtype.TaskResultReady? && e.rtype.TaskResultReady? && e.task == Some(t)
    requires Settle(s, t, row, released, d, v, Some(e), w).Some?
    ensures Emit(s.ledger, d, s.now, v).Some?
    ensures var s' := Settle(s, t, row, released, d, v, Some(e), w).value;
            var l := Emit(s.ledger, d, s.now, v).value;
            s'.ledger == l + [Receipt(|l|, s.now, e, true)]
  {
    hide Told, Stored, Linked, Proceeds;
    var l := Emit(s.ledger, d, s.now, v).value;
    EmitSilent(s.ledger, d, s.now, v);
    NoticeIsNew(s, l, t, e);
  }

  /** The notice fits, if its parent is an assignment of the task whose addressee it tells. */
  lemma SettleTold(s: State, t: TaskId, row: Task, released: set<LeaseId>, d: Statement, v: Verdict, owner: Principal,
                   o: ReceiptId, trace: string, w: Verdict)
    requires Told(s) && t in s.tasks && !IsTerminal(s.tasks[t].status) && !d.rtype.TaskResultReady?
    requires row.status in {Succeeded, Failed, Canceled}
    requires o < |s.ledger| && IsAssignment(s.ledger[o], t) && s.ledger[o].says.to == owner
    requires Settle(s, t, row, released, d, v, Some(ResultReady(t, row, owner, o, trace)), w).Some?
    ensures Told(Settle(s, t, row, released, d, v, Some(ResultReady(t, row, owner, o, trace)), w).value)
  {
    hide Told, Emit, Count, Of;
    var e := ResultReady(t, row, owner, o, trace);
    SettleTells(s, t, row, released, d, v, e, w);
    EmitSilent(s.ledger, d, s.now, v);
    var s' := Settle(s, t, row, released, d, v, Some(e), w).value;
    var l := Emit(s.ledger, d, s.now, v).value;
    assert s'.ledger[..|s'.ledger| - 1] == l && s'.ledger[o] == s.ledger[o];
    assert Tells(s, s', t, e);
    TellsTold(s, s', t, e);
  }

  // ---------------------------------------------------------------------------------------
  // Every step
  // ---------------------------------------------------------------------------------------

  lemma SettleQuiet(s: State, t: TaskId, row: Task, released: set<LeaseId>, d: Statement, v: Verdict,
                    extra: Option<Statement>, w: Verdict)
    requires t in s.tasks && !IsTerminal(s.tasks[t].status) && !IsTerminal(row.status)
    requires !d.rtype.TaskResultReady? && (extra.Some? ==> !extra.value.rtype.TaskResultReady?)
    requires Settle(s, t, row, released, d, v, extra, w).Some?
    ensures Quiet(s, Settle(s, t, row, released, d, v, extra, w).value)
  {
    hide EmitTwo, Silent;
    EmitTwoSilent(s.ledger, s.now, d, v, extra, w);
  }

  lemma SelfQuiet(s: State, s': State)
    requires s'.tasks == s.tasks && s'.ledger == s.ledger
    ensures Quiet(s, s')
  {
  }

  lemma CancelTold(s: State, t: TaskId, actor: Principal, reason: string, authorized: bool, trace: string,
                   v: Verdict, w: Verdict)
    requires Told(s)
    ensures Told(CancelTask(s, t, actor, reason, authorized, trace, v, w).state)
  {
    hide Told, Settle, Obligation, LeasesOn, ResultReady;
    if CancelTask(s, t, actor, reason, authorized, trace, v, w).reply.Ok? {
      var o := Obligation(s.ledger, t, s.tasks[t].owner).value;
      var owner := s.ledger[o].says.to;
      var row := Finished(s.tasks[t], Canceled, None, reason, s.now);
      var d := Statement(TaskCanceled, actor, owner, Some(t), None, [o], CanceledBody(actor, reason, s.now), trace);
      SettleTold(s, t, row, LeasesOn(s.leases, t), d, v, owner, o, trace, w);
    }
  }

  lemma CompleteTold(s: State, k: Call, trace: string, v: Verdict, w: Verdict)
    requires Tables(s) && Told(s) && k.CompleteCall? && CallFits(s, k)
    ensures Told(Complete(s, k, trace, v, w).state)
  {
    hide Told, Settle, ResultReady, LeaseMatchesStatus, IdsIssued;
    if Complete(s, k, trace, v, w).reply.Ok? {
      Holder(s, k.task, k.lease, k.worker);
      var row := Finished(s.tasks[k.task], Succeeded, k.artifacts, k.payload, s.now);
      SettleTold(s, k.task, row, {k.lease}, CompletedReceipt(k, trace), v, k.owner, k.obligation, trace, w);
    }
  }

  lemma FailTold(c: Config, s: State, k: Call, trace: string, v: Verdict, w: Verdict)
    requires Tables(s) && Records(s) && Told(s) && k.FailCall? && CallFits(s, k)
    ensures Told(Fail(c, s, k, trace, v, w).state)
  {
    hide Told, Records, Settle, ResultReady, LeaseMatchesStatus, IdsIssued, Backoff, Quiet;
    if Fail(c, s, k, trace, v, w).reply.Ok? {
      Holder(s, k.task, k.lease, k.worker);
      if k.requeue {
        var row := RequeuedWithBackoff(c, s.tasks[k.task], s.now);
        SettleQuiet(s, k.task, row, {k.lease}, RetryReceipt(k, row, trace), v, None, w);
        QuietTold(s, Fail(c, s, k, trace, v, w).state);
      } else {
        var row := Finished(s.tasks[k.task], Failed, None, k.error, s.now);
        SettleTold(s, k.task, row, {k.lease}, FailedReceipt(k, trace), v, k.owner, k.obligation, trace, w);
      }
    }
  }

  lemma FinishTold(c: Config, s: State, k: CallId, trace: string, v: Verdict, w: Verdict)
    requires Inv(c, s) && Told(s)
    ensures Told(Finish(c, s, k, trace, v, w).state)
  {
    hide Told, Complete, Fail, Records, Accounts, LeaseMatchesStatus, LeasesInLifetime, IdsIssued, Quiet;
    if k in s.calls {
      assert CallFits(s, s.calls[k]);
      hide CallFits;
      var mid;
      if s.calls[k].CompleteCall? {
        CompleteTold(s, s.calls[k], trace, v, w);
        mid := Complete(s, s.calls[k], trace, v, w).state;
      } else {
        FailTold(c, s, s.calls[k], trace, v, w);
        mid := Fail(c, s, s.calls[k], trace, v, w).state;
      }
      ToldFrame(mid, Finish(c, s, k, trace, v, w).state);
    }
  }

  lemma ToldFrame(s: State, s': State)
    requires s'.tasks == s.tasks && s'.ledger == s.ledger && Told(s)
    ensures Told(s')
  {
    forall i | 0 <= i < |s'.ledger| ensures NoticeFits(s', i) { assert NoticeFits(s, i); }
  }

  lemma ExpireQuiet(c: Config, s: State, l: LeaseId, jitter: nat, trace: string, v: Verdict, w: Verdict)
    ensures Quiet(s, ExpireLease(c, s, l, jitter, trace, v, w).state)
  {
    hide Quiet, Settle, Obligation;
    SelfQuiet(s, s);
    if ExpireLease(c, s, l, jitter, trace, v, w).reply.Ok? {
      var t := s.leases[l].task;
      var row := s.tasks[t];
      SettleQuiet(s, t, RequeuedOnExpiry(row, s.now, jitter), {l},
                  ExpiredReceipt(s.ledger, t, row, l, s.leases[l], trace), v,
                  Escalation(c, s.ledger, t, row, l, s.leases[l], trace), w);
    }
  }

  lemma StartQuiet(s: State, t: TaskId, l: LeaseId, w: WorkerId, trace: string, v: Verdict)
    requires t in s.tasks && s.tasks[t].status.Leased? && MarkRunning(s, t, l, w, trace, v).Some?
    ensures Quiet(s, MarkRunning(s, t, l, w, trace, v).value)
  {
    hide Quiet, Settle, Obligation;
    var started := StartedAt(s, t);
    SettleQuiet(s, t, s.tasks[t].(status := Running, startedAt := Some(started)), {},
                FromHolder(s.ledger, TaskStarted, t, s.tasks[t], l, w, StartedBody(started), trace), v, None, v);
  }

  lemma StartTaskQuiet(s: State, t: TaskId, l: LeaseId, w: WorkerId, trace: string, v: Verdict)
    ensures Quiet(s, StartTask(s, t, l, w, trace, v).state)
  {
    hide Quiet, MarkRunning, Validates;
    SelfQuiet(s, s);
    if t in s.tasks && s.tasks[t].status.Leased? && MarkRunning(s, t, l, w, trace, v).Some? {
      StartQuiet(s, t, l, w, trace, v);
    }
  }

  lemma QuietOn(a: State, b: State, c: State)
    requires Quiet(a, b) && Silent(b.ledger, c.ledger) && c.tasks == b.tasks
    ensures Quiet(a, c)
  {
    hide Silent;
    SilentOn(a.ledger, b.ledger, c.ledger);
  }

  lemma ProgressQuiet(s: State, t: TaskId, l: LeaseId, w: WorkerId, data: string, trace: string, v: Verdict,
                      v': Verdict)
    ensures Quiet(s, ReportProgress(s, t, l, w, data, trace, v, v').state)
  {
    hide Quiet, Silent, MarkRunning, Emit, FromHolder, Validates;
    SelfQuiet(s, s);
    var s' := ReportProgress(s, t, l, w, data, trace, v, v').state;
    if ReportProgress(s, t, l, w, data, trace, v, v').reply.Ok? {
      var leased := s.tasks[t].status.Leased?;
      if leased {
        StartQuiet(s, t, l, w, trace, v);
      }
      var r := if leased then MarkRunning(s, t, l, w, trace, v).value else s;
      var d := FromHolder(s.ledger, TaskProgress, t, s.tasks[t], l, w, ProgressBody(data), trace);
      FromHolderType(s.ledger, TaskProgress, t, s.tasks[t], l, w, ProgressBody(data), trace);
      EmitSilent(r.ledger, d, s.now, v');
      QuietOn(s, r, s');
    }
  }

  lemma FromHolderType(l: Rows, rtype: ReceiptType, t: TaskId, row: Task, lease: LeaseId, worker: WorkerId, body: Body,
                       trace: string)
    ensures FromHolder(l, rtype, t, row, lease, worker, body, trace).rtype == rtype
  {
  }

  lemma SilentSelf(l: Rows)
    ensures Silent(l, l)
  {
  }

  lemma {:induction false} GrantAllQuiet(c: Config, s: State, ts: seq<TaskId>, w: WorkerId, caps: set<string>,
                                         ttl: Option<int>, trace: string, vs: seq<Verdict>)
    requires forall t :: t in ts ==> t in s.tasks
    requires GrantAll(c, s, ts, w, caps, ttl, trace, vs).Some?
    ensures Silent(s.ledger, GrantAll(c, s, ts, w, caps, ttl, trace, vs).value.ledger)
  {
    hide Silent, Emit, Obligation, NewLease;
    if ts == [] {
      SilentSelf(s.ledger);
    } else {
      var n := |ts| - 1;
      GrantAllQuiet(c, s, ts[..n], w, caps, ttl, trace, vs);
      var mid := GrantAll(c, s, ts[..n], w, caps, ttl, trace, vs).value;
      var d := AcceptedReceipt(mid.ledger, ts[n], mid.tasks[ts[n]], mid.nextLease, w, caps, trace);
      EmitSilent(mid.ledger, d, mid.now, VerdictAt(vs, n));
      SilentOn(s.ledger, mid.ledger, GrantAll(c, s, ts, w, caps, ttl, trace, vs).value.ledger);
    }
  }

  lemma LeaseNextQuiet(c: Config, s: State, w: WorkerId, caps: set<string>, types: set<string>, max: int,
                       ttl: Option<int>, sel: seq<TaskId>, trace: string, vs: seq<Verdict>)
    requires Inv(c, s)
    ensures Quiet(s, LeaseNext(c, s, w, caps, types, max, ttl, sel, trace, vs).state)
  {
    hide Inv, GrantAll, Matching, Tracks, Silent;
    SilentSelf(s.ledger);
    if LeaseNext(c, s, w, caps, types, max, ttl, sel, trace, vs).reply.Ok? {
      var ts := Matching(s.tasks, sel, caps);
      GrantAllKeeps(c, s, ts, w, caps, ttl, trace, vs);
      GrantAllQuiet(c, s, ts, w, caps, ttl, trace, vs);
    }
  }

  lemma CreateQuiet(c: Config, s: State, r: NewTask, v: Verdict)
    requires IdsIssued(s)
    ensures Quiet(s, CreateTask(c, s, r, v).state)
  {
    hide Emit, Silent;
    SilentSelf(s.ledger);
    if CreateTask(c, s, r, v).reply.Ok? {
      var known := r.key.Some? && r.key.value in s.keys && s.keys[r.key.value] in s.tasks;
      var t := if known then s.keys[r.key.value] else s.nextTask;
      EmitSilent(s.ledger, AssignedReceipt(r, t, if known then s.tasks[t] else NewRow(c, s.now, r)), s.now, v);
    }
  }

  lemma AcknowledgeQuiet(s: State, r: ReceiptId, actor: Principal, trace: string, v: Verdict)
    ensures Quiet(s, Acknowledge(s, r, actor, trace, v).state)
  {
    hide Emit, Silent;
    SilentSelf(s.ledger);
    var d := Statement(ReceiptAcknowledged, actor, SERVICE_PRINCIPAL, None, None, [r], AcknowledgedBody(r), trace);
    if Emit(s.ledger, d, s.now, v).Some? {
      EmitSilent(s.ledger, d, s.now, v);
    }
  }

  lemma ReconcileQuiet(s: State, w: WorkerId, owed: set<TaskId>)
    requires Tables(s)
    ensures Quiet(s, Reconcile(s, w, owed))
  {
    ReconcileMoves(s, w, owed);
    forall t | t in s.tasks
      ensures Reconcile(s, w, owed).tasks[t] == s.tasks[t] ||
              (!IsTerminal(s.tasks[t].status) && !IsTerminal(Reconcile(s, w, owed).tasks[t].status))
    {
    }
  }

  lemma RenewQuiet(c: Config, s: State, t: TaskId, l: LeaseId, w: WorkerId, extend: Option<int>)
    ensures Quiet(s, RenewLease(c, s, t, l, w, extend).state)
  {
  }

  lemma BeginQuiet(s: State, k: CallId, t: TaskId, l: LeaseId, w: WorkerId, text: string, artifacts: Option<Artifacts>,
                   retryable: bool)
    ensures Quiet(s, BeginComplete(s, k, t, l, w, text, artifacts).state)
    ensures Quiet(s, BeginFail(s, k, t, l, w, text, retryable).state)
  {
    hide Obligation;
  }

  lemma NextTold(c: Config, s: State, step: Step)
    requires Inv(c, s) && Told(s)
    ensures Told(Next(c, s, step))
  {
    hide Inv, Told, Quiet, CreateTask, CancelTask, LeaseNext, RenewLease, StartTask, ReportProgress, BeginComplete,
         BeginFail, Finish, ExpireLease, Reconcile, Acknowledge;
    InvParts(c, s);
    match step {
      case Tick(at) => SelfQuiet(s, Next(c, s, step));
      case DoCreate(r, v) => CreateQuiet(c, s, r, v);
      case DoCancel(t, actor, reason, authorized, trace, v, w) =>
        CancelTold(s, t, actor, reason, authorized, trace, v, w);
      case DoLeaseNext(worker, caps, types, max, ttl, sel, trace, vs) =>
        LeaseNextQuiet(c, s, worker, caps, types, max, ttl, sel, trace, vs);
      case DoRenew(t, l, w, extend) => RenewQuiet(c, s, t, l, w, extend);
      case DoStart(t, l, w, trace, v) => StartTaskQuiet(s, t, l, w, trace, v);
      case DoProgress(t, l, worker, data, trace, v, w) => ProgressQuiet(s, t, l, worker, data, trace, v, w);
      case DoBeginComplete(k, t, l, w, payload, artifacts) => BeginQuiet(s, k, t, l, w, payload, artifacts, false);
      case DoBeginFail(k, t, l, w, error, retryable) => BeginQuiet(s, k, t, l, w, error, None, retryable);
      case DoFinish(k, trace, v, w) => FinishTold(c, s, k, trace, v, w);
      case DoExpire(l, jitter, trace, v, w) => ExpireQuiet(c, s, l, jitter, trace, v, w);
      case DoReconcile(w, owed) => ReconcileQuiet(s, w, owed);
      case DoAcknowledge(r, actor, trace, v) => AcknowledgeQuiet(s, r, actor, trace, v);
    }
    if !step.DoCancel? && !step.DoFinish? {
      QuietTold(s, Next(c, s, step));
    }
  }

  lemma InvParts(c: Config, s: State)
    requires Inv(c, s)
    ensures Tables(s) && IdsIssued(s) && Records(s) && Accounts(s) && Pending(s)
  {
  }

  lemma {:induction false} RunTold(c: Config, now: Time, steps: seq<Step>)
    ensures Told(Run(c, Init(now), steps))
    decreases |steps|
  {
    hide Inv, Told, Next;
    if steps == [] {
      ToldAtFirst(now);
    } else {
      var n := |steps| - 1;
      RunTold(c, now, steps[..n]);
      InitInv(c, now);
      RunKeeps(c, Init(now), steps[..n]);
      NextTold(c, Run(c, Init(now), steps[..n]), steps[n]);
    }
  }

  lemma ToldAtFirst(now: Time)
    ensures Told(Init(now))
  {
  }

  /** In every reachable state a task has exactly one result_ready receipt if it has ended and none
      before; and each goes from the service to the addressee of the assignment it names as its one
      parent, and carries the status and the artifacts of the task's row. */
  lemma ToldExactlyOnce(c: Config, s: State, t: TaskId, i: nat)
    requires Reachable(c, s) && t in s.tasks
    ensures Count(Of(s.ledger, t), TaskResultReady) ==
              if s.tasks[t].status in {Succeeded, Failed, Canceled} then 1 else 0
    ensures i < |s.ledger| && s.ledger[i].says.rtype.TaskResultReady? && s.ledger[i].says.task == Some(t) ==>
              var d, row := s.ledger[i].says, s.tasks[t];
              && d.from == Principal(Service, "svc:asyncgate") && |d.parents| == 1 && d.parents[0] < i
              && s.ledger[d.parents[0]].says.rtype.TaskAssigned? && s.ledger[d.parents[0]].says.task == Some(t)
              && s.ledger[d.parents[0]].says.to == d.to
              && row.result.Some? && d.body == ResultReadyBody(row.status, row.result.value.artifacts)
  {
    hide Run, Init, Of, Count, Outcomes, Closes, Inv;
    ReachableTold(c, s);
    ReachableInv(c, s);
    InvParts(c, s);
    assert Accounted(s.tasks[t], Of(s.ledger, t));
    if i < |s.ledger| {
      assert NoticeFits(s, i);
    }
  }

  lemma ReachableTold(c: Config, s: State)
    requires Reachable(c, s)
    ensures Told(s)
  {
    hide Run, Told, Init;
    var now, steps :| s == Run(c, Init(now), steps);
    RunTold(c, now, steps);
  }
}
