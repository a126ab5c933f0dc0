/** The guarantees of the task lifecycle, stated over whole runs. */
module Guarantees {
  import opened Domain
  import opened Ledger
  import opened Lifecycle
  import opened LifecycleInvariant
  import opened LifecycleTheorems

  // ---------------------------------------------------------------------------------------
  // Leases and statuses
  // ---------------------------------------------------------------------------------------

  /** In every reachable state a task has exactly one lease while it is LEASED or RUNNING, and
      none otherwise; so a claim never meets the uniqueness constraint. */
  lemma LeaseIffActive(c: Config, s: State, t: TaskId)
    requires Reachable(c, s) && t in s.tasks
    ensures IsActive(s.tasks[t].status) <==> LeasesOn(s.leases, t) != {}
    ensures forall l, m :: l in LeasesOn(s.leases, t) && m in LeasesOn(s.leases, t) ==> l == m
  {
    hide Reachable, Records, Accounts, Pending, LeasesInLifetime, IdsIssued;
    ReachableInv(c, s);
    if IsActive(s.tasks[t].status) {
      var l :| l in s.leases && s.leases[l].task == t;
      assert l in LeasesOn(s.leases, t);
    }
  }

  /** Every write of a status is an edge of the transition table, although failing, requeuing and
      reconciling never consult it; and the edge out of FAILED is never taken. */
  lemma EveryWriteIsLegal(c: Config, s: State, step: Step, t: TaskId)
    requires Reachable(c, s) && t in s.tasks
    ensures t in Next(c, s, step).tasks
    ensures var before, after := s.tasks[t], Next(c, s, step).tasks[t];
            || after == before
            || (before.status.Queued? && after.status in {Leased, Canceled})
            || (before.status.Leased? && after.status in {Running, Succeeded, Failed, Canceled, Queued})
            || (before.status.Running? && after.status in {Succeeded, Failed, Canceled, Queued})
    ensures Next(c, s, step).tasks[t] == s.tasks[t] ||
            (!IsTerminal(s.tasks[t].status) && CanTransition(s.tasks[t].status, Next(c, s, step).tasks[t].status))
  {
    hide Reachable, Inv, Next, CanTransition, IsTerminal;
    ReachableInv(c, s);
    NextMoves(c, s, step);
    Edges(s.tasks[t].status, Next(c, s, step).tasks[t].status);
  }

  lemma Edges(from: TaskStatus, to: TaskStatus)
    ensures !IsTerminal(from) && CanTransition(from, to) <==>
              || (from.Queued? && to in {Leased, Canceled})
              || (from.Leased? && to in {Running, Succeeded, Failed, Canceled, Queued})
              || (from.Running? && to in {Succeeded, Failed, Canceled, Queued})
  {
  }

  /** A finished task never changes again, in any respect. */
  lemma {:induction false} FinishedForever(c: Config, s: State, steps: seq<Step>, t: TaskId)
    requires Inv(c, s) && t in s.tasks && IsTerminal(s.tasks[t].status)
    ensures t in Run(c, s, steps).tasks && Run(c, s, steps).tasks[t] == s.tasks[t]
    decreases |steps|
  {
    hide Inv, Next;
    if steps == [] {
    } else {
      var n := |steps| - 1;
      FinishedForever(c, s, steps[..n], t);
      RunKeeps(c, s, steps[..n]);
      NextMoves(c, Run(c, s, steps[..n]), steps[n]);
    }
  }

  /** What one whole run preserves: ids only grow, the ledger only grows, and a lease that is
      still there is still the same grant. */
  lemma {:induction false} RunMoves(c: Config, s: State, steps: seq<Step>)
    requires Inv(c, s)
    ensures var s' := Run(c, s, steps);
            && s.ledger <= s'.ledger && s.now <= s'.now && s.nextLease <= s'.nextLease
            && s.tasks.Keys <= s'.tasks.Keys
            && forall l :: l in s'.leases && l < s.nextLease ==> l in s.leases && SameGrant(s.leases[l], s'.leases[l])
    decreases |steps|
  {
    hide Inv, Next;
    if steps == [] {
    } else {
      var n := |steps| - 1;
      RunMoves(c, s, steps[..n]);
      RunKeeps(c, s, steps[..n]);
      NextMoves(c, Run(c, s, steps[..n]), steps[n]);
    }
  }

  // ---------------------------------------------------------------------------------------
  // Fencing
  // ---------------------------------------------------------------------------------------

  /** The step presents lease id `l`. */
  predicate Presents(s: State, step: Step, l: LeaseId) {
    match step
    case DoRenew(_, m, _, _) => m == l
    case DoStart(_, m, _, _, _) => m == l
    case DoProgress(_, m, _, _, _, _, _) => m == l
    case DoBeginComplete(_, _, m, _, _, _) => m == l
    case DoBeginFail(_, _, m, _, _, _) => m == l
    case DoFinish(k, _, _, _) => k in s.calls && s.calls[k].lease == l
    case _ => false
  }

  lemma PresentingNothing(c: Config, s: State, step: Step, l: LeaseId)
    requires l !in s.leases && Presents(s, step, l)
    ensures !Apply(c, s, step).reply.Ok?
    ensures Next(c, s, step).(calls := s.calls) == s
  {
  }

  /** Once a lease id has left the table, every call that presents it, however much later,
      is refused and leaves tasks, leases and ledger exactly as they are: the successor's lease
      included. */
  lemma Fencing(c: Config, s: State, l: LeaseId, steps: seq<Step>, step: Step)
    requires Inv(c, s) && l < s.nextLease && l !in s.leases
    requires Presents(Run(c, s, steps), step, l)
    ensures var s' := Run(c, s, steps);
            && l !in s'.leases
            && !Apply(c, s', step).reply.Ok?
            && Next(c, s', step).(calls := s'.calls) == s'
  {
    hide Inv, Apply, Presents;
    RunMoves(c, s, steps);
    PresentingNothing(c, Run(c, s, steps), step, l);
  }

  // ---------------------------------------------------------------------------------------
  // Decisions made before the lock
  // ---------------------------------------------------------------------------------------

  /** The step is the locked phase of call `k`. */
  predicate Ends(step: Step, k: CallId) { step.DoFinish? && step.call == k }

  lemma CallStays(c: Config, s: State, step: Step, k: CallId)
    requires k in s.calls && !Ends(step, k)
    ensures k in Next(c, s, step).calls && Next(c, s, step).calls[k] == s.calls[k]
  {
    hide Settle, Obligation, Appended, GrantAll, Complete, Fail, Validates, IsSelection, Matching;
    match step {
      case DoFinish(j, trace, v, w) =>
        if j in s.calls {
          if s.calls[j].CompleteCall? {
            CompleteCalls(s, s.calls[j], trace, v, w);
          } else {
            FailCalls(c, s, s.calls[j], trace, v, w);
          }
        }
      case DoLeaseNext(worker, caps, types, max, ttl, sel, trace, vs) =>
        if LeaseNext(c, s, worker, caps, types, max, ttl, sel, trace, vs).reply.Ok? {
          GrantAllCalls(c, s, Matching(s.tasks, sel, caps), worker, caps, ttl, trace, vs);
        }
      case _ =>
    }
  }

  lemma {:induction false} GrantAllCalls(c: Config, s: State, ts: seq<TaskId>, w: WorkerId, caps: set<string>,
                                         ttl: Option<int>, trace: string, vs: seq<Verdict>)
    requires forall t :: t in ts ==> t in s.tasks
    requires GrantAll(c, s, ts, w, caps, ttl, trace, vs).Some?
    ensures GrantAll(c, s, ts, w, caps, ttl, trace, vs).value.calls == s.calls
  {
    hide Emit;
    if ts == [] {
    } else {
      GrantAllCalls(c, s, ts[..|ts| - 1], w, caps, ttl, trace, vs);
    }
  }

  /** While a lease lasts, its task's attempts do not change. */
  lemma AttemptsHeld(c: Config, s: State, step: Step, l: LeaseId)
    requires Inv(c, s) && l in s.leases && l in Next(c, s, step).leases
    ensures var t, s' := s.leases[l].task, Next(c, s, step);
            && t in s.tasks && t in s'.tasks && s'.leases[l].task == t
            && s'.tasks[t].attempt == s.tasks[t].attempt && s'.tasks[t].maxAttempts == s.tasks[t].maxAttempts
  {
    hide Next, Records, Accounts, Pending, Lifetimes;
    NextKeeps(c, s, step);
    NextMoves(c, s, step);
    hide Inv;
    assert Tables(s) && Tables(Next(c, s, step));
  }

  lemma {:induction false} AttemptsHeldThroughout(c: Config, s: State, steps: seq<Step>, l: LeaseId)
    requires Inv(c, s) && l in s.leases && l in Run(c, s, steps).leases
    ensures var t, s' := s.leases[l].task, Run(c, s, steps);
            && t in s.tasks && t in s'.tasks && s'.leases[l].task == t
            && s'.tasks[t].attempt == s.tasks[t].attempt && s'.tasks[t].maxAttempts == s.tasks[t].maxAttempts
    decreases |steps|
  {
    if steps == [] {
      assert Tables(s);
    } else {
      hide Next;
      var n := |steps| - 1;
      var mid := Run(c, s, steps[..n]);
      RunKeeps(c, s, steps[..n]);
      NextMoves(c, mid, steps[n]);
      RunMoves(c, s, steps[..n]);
      assert l < s.nextLease;
      hide Inv;
      AttemptsHeldThroughout(c, s, steps[..n], l);
      AttemptsHeld(c, mid, steps[n], l);
    }
  }

  lemma {:induction false} CallStaysThroughout(c: Config, s: State, steps: seq<Step>, k: CallId)
    requires k in s.calls && forall st :: st in steps ==> !Ends(st, k)
    ensures k in Run(c, s, steps).calls && Run(c, s, steps).calls[k] == s.calls[k]
    decreases |steps|
  {
    hide Next;
    if steps == [] {
    } else {
      var n := |steps| - 1;
      CallStaysThroughout(c, s, steps[..n], k);
      CallStays(c, Run(c, s, steps[..n]), steps[n], k);
    }
  }

  /** Between the pre-read of a `fail` call and its locked phase anything may happen. If the lease
      still validates then, the task has used and has left exactly the attempts it had at the
      pre-read, and the requeue decision is the one a fresh read would make. */
  lemma StaleDecisionIsFresh(c: Config, s: State, k: CallId, t: TaskId, l: LeaseId, w: WorkerId, error: string,
                             retryable: bool, steps: seq<Step>)
    requires Reachable(c, s) && BeginFail(s, k, t, l, w, error, retryable).reply.Ok?
    requires forall st :: st in steps ==> !Ends(st, k)
    requires Validates(Run(c, BeginFail(s, k, t, l, w, error, retryable).state, steps), t, l, w)
    ensures var s' := Run(c, BeginFail(s, k, t, l, w, error, retryable).state, steps);
            && t in s.tasks && t in s'.tasks
            && s'.tasks[t].attempt == s.tasks[t].attempt && s'.tasks[t].maxAttempts == s.tasks[t].maxAttempts
            && k in s'.calls && s'.calls[k].FailCall?
            && s'.calls[k].requeue == ShouldRequeue(s'.tasks[t], retryable)
  {
    hide Inv, Run, Obligation, Reachable, Ends;
    ReachableInv(c, s);
    BeginFailKeeps(c, s, k, t, l, w, error, retryable);
    var mid := BeginFail(s, k, t, l, w, error, retryable).state;
    CallStaysThroughout(c, mid, steps, k);
    AttemptsHeldThroughout(c, mid, steps, l);
  }

  // ---------------------------------------------------------------------------------------
  // A holder can always finish
  // ---------------------------------------------------------------------------------------

  /** A worker whose lease validates is never turned away at the pre-read: its task is in a
      status that allows it, and its obligation is on the ledger. */
  lemma HolderMayBegin(c: Config, s: State, k: CallId, t: TaskId, l: LeaseId, w: WorkerId, text: string,
                       artifacts: Option<Artifacts>, retryable: bool)
    requires Reachable(c, s) && Validates(s, t, l, w) && k !in s.calls
    ensures BeginComplete(s, k, t, l, w, text, artifacts).reply.Ok?
    ensures BeginFail(s, k, t, l, w, text, retryable).reply.Ok?
  {
    hide Reachable, Accounts, Pending, LeaseMatchesStatus, LeasesInLifetime, Obligation, RowFits;
    ReachableInv(c, s);
    Holder(s, t, l, w);
    assert Obligation(s.ledger, t, s.tasks[t].owner).Some?;
  }

  lemma SettleCommits(s: State, t: TaskId, row: Task, released: set<LeaseId>, d: Statement, v: Verdict,
                      extra: Option<Statement>, w: Verdict)
    requires Linked(s.ledger, d) && Proceeds(d.rtype, v)
    requires extra.Some? ==> !IsTerminalType(extra.value.rtype) && Proceeds(extra.value.rtype, w)
    ensures Settle(s, t, row, released, d, v, extra, w).Some?
  {
    hide Appended;
  }

  lemma CompleteGoesThrough(s: State, k: Call, trace: string, v: Verdict, w: Verdict)
    requires k.CompleteCall? && k.obligation < |s.ledger| && Validates(s, k.task, k.lease, k.worker)
    requires k.task in s.tasks && IsActive(s.tasks[k.task].status)
    requires Proceeds(TaskCompleted, v) && Proceeds(TaskResultReady, w)
    ensures var r := Complete(s, k, trace, v, w);
            && r.reply.Ok? && r.state.leases == s.leases - {k.lease}
            && k.task in r.state.tasks && r.state.tasks[k.task].status.Succeeded?
  {
    hide Settle;
    var row := Finished(s.tasks[k.task], Succeeded, k.artifacts, k.payload, s.now);
    SettleCommits(s, k.task, row, {k.lease}, CompletedReceipt(k, trace), v,
                  Some(ResultReady(k.task, row, k.owner, k.obligation, trace)), w);
  }

  lemma FailGoesThrough(c: Config, s: State, k: Call, trace: string, v: Verdict, w: Verdict)
    requires k.FailCall? && k.obligation < |s.ledger| && Validates(s, k.task, k.lease, k.worker) && k.task in s.tasks
    requires Proceeds(TaskCompleted, v) && Proceeds(TaskResultReady, w)
    ensures var r := Fail(c, s, k, trace, v, w);
            && r.reply.Ok? && r.state.leases == s.leases - {k.lease}
            && k.task in r.state.tasks && r.state.tasks[k.task].status == if k.requeue then Queued else Failed
  {
    hide Settle, Backoff;
    if k.requeue {
      var row := RequeuedWithBackoff(c, s.tasks[k.task], s.now);
      SettleCommits(s, k.task, row, {k.lease}, RetryReceipt(k, row, trace), v, None, w);
    } else {
      var row := Finished(s.tasks[k.task], Failed, None, k.error, s.now);
      SettleCommits(s, k.task, row, {k.lease}, FailedReceipt(k, trace), v,
                    Some(ResultReady(k.task, row, k.owner, k.obligation, trace)), w);
    }
  }

  /** If the lease still validates in the locked phase and no emission raises, the call commits,
      and the status it leaves is the one a decision made under the lock would have left. */
  lemma HolderMayFinish(c: Config, s: State, k: CallId, trace: string, v: Verdict, w: Verdict)
    requires Reachable(c, s) && k in s.calls
    requires Validates(s, s.calls[k].task, s.calls[k].lease, s.calls[k].worker)
    requires Proceeds(TaskCompleted, v) && Proceeds(TaskResultReady, w)
    ensures Finish(c, s, k, trace, v, w).reply.Ok?
    ensures var t, s' := s.calls[k].task, Finish(c, s, k, trace, v, w).state;
            && t in s.tasks && t in s'.tasks
            && LeasesOn(s'.leases, t) == {}
            && s'.tasks[t].status ==
                 (match s.calls[k]
                  case CompleteCall(_, _, _, _, _, _, _) => Succeeded
                  case FailCall(_, _, _, _, retryable, _, _, _) =>
                    if ShouldRequeue(s.tasks[t], retryable) then Queued else Failed)
  {
    hide Reachable, Records, Accounts, LeaseMatchesStatus, LeasesInLifetime, Complete, Fail;
    ReachableInv(c, s);
    var call := s.calls[k];
    Holder(s, call.task, call.lease, call.worker);
    assert CallFits(s, call);
    hide Pending, CallFits, Validates;
    if call.CompleteCall? {
      CompleteGoesThrough(s, call, trace, v, w);
    } else {
      FailGoesThrough(c, s, call, trace, v, w);
    }
  }

  /** Whatever is not answered with success has changed no table: every operation commits as a
      whole or not at all. */
  lemma RefusedChangesNothing(c: Config, s: State, step: Step)
    requires !Apply(c, s, step).reply.Ok?
    ensures Next(c, s, step).(calls := s.calls) == s
  {
    hide Settle, Obligation, Emit, GrantAll;
  }

  // ---------------------------------------------------------------------------------------
  // Receipts
  // ---------------------------------------------------------------------------------------

  /** `id` is closed exactly when its own task's terminal receipts name it. */
  lemma ClosedByOwnTask(c: Config, s: State, t: TaskId, id: ReceiptId)
    requires Inv(c, s) && id < |s.ledger| && IsAssignment(s.ledger[id], t)
    ensures HasTerminator(s.ledger, id) <==> id in Closes(Of(s.ledger, t))
  {
    hide Accounts, Pending, LeaseMatchesStatus, LeasesInLifetime, Of, Closes;
    var h := Of(s.ledger, t);
    ClosesMember(h, id);
    if HasTerminator(s.ledger, id) {
      var i :| 0 <= i < |s.ledger| && IsTerminalType(s.ledger[i].says.rtype) && id in s.ledger[i].says.parents;
      assert RowFits(s, i);
      OfMember(s.ledger, t, s.ledger[i]);
      var j :| 0 <= j < |h| && h[j] == s.ledger[i];
    }
    if j :| 0 <= j < |h| && IsTerminalType(h[j].says.rtype) && id in h[j].says.parents {
      OfMember(s.ledger, t, h[j]);
      var i :| 0 <= i < |s.ledger| && s.ledger[i] == h[j];
    }
  }

  /** What terminal receipts name are assignments of their own task. */
  lemma ClosesOwnAssignments(c: Config, s: State, t: TaskId, id: ReceiptId)
    requires Inv(c, s) && id in Closes(Of(s.ledger, t))
    ensures id < |s.ledger| && IsAssignment(s.ledger[id], t)
  {
    hide Accounts, Pending, LeaseMatchesStatus, LeasesInLifetime, Of, Closes;
    var h := Of(s.ledger, t);
    ClosesMember(h, id);
    var j :| 0 <= j < |h| && IsTerminalType(h[j].says.rtype) && id in h[j].says.parents;
    OfMember(s.ledger, t, h[j]);
    var i :| 0 <= i < |s.ledger| && s.ledger[i] == h[j];
    assert RowFits(s, i);
  }

  /** A task has one terminal receipt, of the type that matches its status, if its status is
      terminal, and none otherwise. While it is open so is each of its assignments. A task that
      failed, was canceled, or succeeded with artifacts has had exactly one of its assignments
      closed; one that succeeded without artifacts has had none closed and left one anomaly. */
  lemma TerminalReceipts(c: Config, s: State, t: TaskId)
    requires Reachable(c, s) && t in s.tasks
    ensures Outcomes(Of(s.ledger, t)) ==
              (if IsTerminal(s.tasks[t].status) then [TerminalTypeOf(s.tasks[t].status)] else [])
    ensures IsTerminal(s.tasks[t].status) && !Unlocatable(s.tasks[t]) <==>
              exists id :: 0 <= id < |s.ledger| && IsAssignment(s.ledger[id], t) && HasTerminator(s.ledger, id)
    ensures forall i, j | 0 <= i < |s.ledger| && 0 <= j < |s.ledger|
              && IsAssignment(s.ledger[i], t) && HasTerminator(s.ledger, i)
              && IsAssignment(s.ledger[j], t) && HasTerminator(s.ledger, j) :: i == j
    ensures Count(Of(s.ledger, t), SystemAnomaly) == (if Unlocatable(s.tasks[t]) then 1 else 0)
  {
    hide Reachable, Records, Pending, LeaseMatchesStatus, LeasesInLifetime, Of, Closes, Outcomes, Count, HasTerminator;
    ReachableInv(c, s);
    var h := Of(s.ledger, t);
    assert Accounted(s.tasks[t], h);
    hide Inv;
    forall i | 0 <= i < |s.ledger| && IsAssignment(s.ledger[i], t)
      ensures HasTerminator(s.ledger, i) <==> i in Closes(h)
    {
      ClosedByOwnTask(c, s, t, i);
    }
    if |Closes(h)| == 1 {
      ClosesOwnAssignments(c, s, t, Closes(h)[0]);
    }
  }

  /** Re-creating a finished task under its idempotency key adds an assignment that nothing will
      ever close. */
  lemma ReassignmentStaysOpen(c: Config, s: State, t: TaskId, steps: seq<Step>, id: ReceiptId)
    requires Reachable(c, s) && t in s.tasks && IsTerminal(s.tasks[t].status)
    requires |s.ledger| <= id < |Run(c, s, steps).ledger| && IsAssignment(Run(c, s, steps).ledger[id], t)
    ensures !HasTerminator(Run(c, s, steps).ledger, id)
  {
    hide Reachable, Run, Records, Pending, LeaseMatchesStatus, LeasesInLifetime, Of, Closes, Outcomes, Count,
         HasTerminator;
    ReachableInv(c, s);
    var s' := Run(c, s, steps);
    RunKeeps(c, s, steps);
    RunMoves(c, s, steps);
    FinishedForever(c, s, steps, t);
    assert Accounted(s.tasks[t], Of(s.ledger, t)) && Accounted(s'.tasks[t], Of(s'.ledger, t));
    hide Inv;
    ClosedByOwnTask(c, s', t, id);
    var m := s'.ledger[|s.ledger|..];
    assert s'.ledger == s.ledger + m;
    OfAppend(s.ledger, m, t);
    SameOutcomesSameCloses(Of(s.ledger, t), Of(m, t));
    if id in Closes(Of(s.ledger, t)) {
      ClosesOwnAssignments(c, s, t, id);
    }
  }

  /** Creating again under a key that is already taken, which a task must hold, adds one assignment
      of that task exactly if no stored receipt has its hash, and changes nothing else. */
  lemma RecreationAddsIff(c: Config, s: State, r: NewTask, v: Verdict)
    requires Reachable(c, s) && r.key.Some? && r.key.value != "" && r.key.value in s.keys && !v.TooLarge?
    ensures s.keys[r.key.value] in s.tasks && CreateTask(c, s, r, v).reply.Ok?
    ensures var t := s.keys[r.key.value];
            var d := AssignedReceipt(r, t, s.tasks[t]);
            var s' := CreateTask(c, s, r, v).state;
            && s' == s.(ledger := s'.ledger)
            && (if Stored(s.ledger, d) then s'.ledger == s.ledger
                else |s'.ledger| == |s.ledger| + 1 && s.ledger <= s'.ledger && IsAssignment(s'.ledger[|s.ledger|], t))
  {
    hide Reachable, Stored, Records, Accounts, Pending, LeaseMatchesStatus, LeasesInLifetime;
    ReachableInv(c, s);
  }

  lemma AssignmentStays(l: Rows, l': Rows, t: TaskId, i: nat)
    requires l <= l' && i < |l| && IsAssignment(l[i], t)
    ensures i < |l'| && IsAssignment(l'[i], t)
  {
    assert l'[i] == l[i];
  }

  lemma OneAssignmentOpen(c: Config, s: State, t: TaskId, i: ReceiptId, j: ReceiptId, steps: seq<Step>)
    requires Reachable(c, s) && t in s.tasks && i < |s.ledger| && j < |s.ledger| && i != j
    requires IsAssignment(s.ledger[i], t) && IsAssignment(s.ledger[j], t)
    ensures !HasTerminator(Run(c, s, steps).ledger, i) || !HasTerminator(Run(c, s, steps).ledger, j)
  {
    var s' := Run(c, s, steps);
    ReachableOn(c, s, steps);
    hide Reachable, Run, HasTerminator, IsAssignment, Of, Outcomes, Count;
    ReachableInv(c, s);
    hide Inv;
    RunMoves(c, s, steps);
    AssignmentStays(s.ledger, s'.ledger, t, i);
    AssignmentStays(s.ledger, s'.ledger, t, j);
    TerminalReceipts(c, s', t);
  }

  /** Nothing terminates `id` at any moment of the run. */
  ghost predicate OpenThroughout(c: Config, s: State, steps: seq<Step>, id: ReceiptId) {
    forall n :: 0 <= n <= |steps| ==> !HasTerminator(Run(c, s, steps[..n]).ledger, id)
  }

  lemma OpenAtTheEnd(c: Config, s: State, steps: seq<Step>, id: ReceiptId)
    requires Inv(c, s) && !HasTerminator(Run(c, s, steps).ledger, id)
    ensures OpenThroughout(c, s, steps, id)
  {
    hide Inv, Run, HasTerminator;
    forall n | 0 <= n <= |steps| ensures !HasTerminator(Run(c, s, steps[..n]).ledger, id) {
      RunKeeps(c, s, steps[..n]);
      RunMoves(c, Run(c, s, steps[..n]), steps[n..]);
      RunAppend(c, s, steps[..n], steps[n..]);
      assert steps[..n] + steps[n..] == steps;
      if HasTerminator(Run(c, s, steps[..n]).ledger, id) {
        TerminatorStays(Run(c, s, steps[..n]).ledger, Run(c, s, steps).ledger, id);
      }
    }
  }

  /** Of two assignments of one task at least one is never closed in any run, whenever they were made
      and however the task ends. */
  lemma OneAssignmentStaysOpen(c: Config, s: State, t: TaskId, i: ReceiptId, j: ReceiptId, steps: seq<Step>)
    requires Reachable(c, s) && t in s.tasks && i < |s.ledger| && j < |s.ledger| && i != j
    requires IsAssignment(s.ledger[i], t) && IsAssignment(s.ledger[j], t)
    ensures OpenThroughout(c, s, steps, i) || OpenThroughout(c, s, steps, j)
  {
    hide Reachable, Run, HasTerminator, OpenThroughout, Inv, IsAssignment;
    ReachableInv(c, s);
    OneAssignmentOpen(c, s, t, i, j, steps);
    if !HasTerminator(Run(c, s, steps).ledger, i) {
      OpenAtTheEnd(c, s, steps, i);
    } else {
      OpenAtTheEnd(c, s, steps, j);
    }
  }

  lemma {:induction false} RunAppend(c: Config, s: State, a: seq<Step>, b: seq<Step>)
    ensures Run(c, s, a + b) == Run(c, Run(c, s, a), b)
    decreases |b|
  {
    hide Next;
    if b == [] {
      assert a + b == a;
    } else {
      var n := |b| - 1;
      assert (a + b)[..|a + b| - 1] == a + b[..n];
      RunAppend(c, s, a, b[..n]);
    }
  }

  lemma ReachableOn(c: Config, s: State, steps: seq<Step>)
    requires Reachable(c, s)
    ensures Reachable(c, Run(c, s, steps))
  {
    var now, before :| s == Run(c, Init(now), before);
    RunAppend(c, Init(now), before, steps);
  }

  /** This happens, under every configuration: a task is created twice under one key by requests of
      different traces, and then canceled. It has ended, and one of its two assignments stays open in
      every continuation. */
  lemma RecreatedWhileQueued(c: Config) returns (steps: seq<Step>)
    ensures var s := Run(c, Init(0), steps);
            && 0 in s.tasks && s.tasks[0].status.Canceled?
            && |s.ledger| >= 2 && IsAssignment(s.ledger[0], 0) && IsAssignment(s.ledger[1], 0)
            && forall more: seq<Step> :: OpenThroughout(c, s, more, 0) || OpenThroughout(c, s, more, 1)
  {
    hide Next, OpenThroughout, Keyed, IsAssignment, Init, Reachable;
    var create := DoCreate(Keyed("a"), Committed);
    var again := DoCreate(Keyed("b"), Committed);
    var cancel := DoCancel(0, SERVICE_PRINCIPAL, "", true, "", Committed, Committed);
    steps := [create, again, cancel];
    var s2 := Next(c, Next(c, Init(0), create), again);
    CreateTwice(c);
    CancelQueued(c, s2);
    assert steps[..2][..1][..0] == [] && steps[..2][..1] == [create] && steps[..2] == [create, again];
    assert Run(c, Init(0), steps[..2][..1]) == Next(c, Init(0), create);
    assert Run(c, Init(0), steps[..2]) == s2;
    var s := Run(c, Init(0), steps);
    ReachedBy(c, 0, steps);
    assert s == Next(c, s2, cancel);
    assert s.ledger[0] == s2.ledger[0] && s.ledger[1] == s2.ledger[1];
    forall more: seq<Step> ensures OpenThroughout(c, s, more, 0) || OpenThroughout(c, s, more, 1) {
      OneAssignmentStaysOpen(c, s, 0, 0, 1, more);
    }
  }

  lemma ReachedBy(c: Config, now: Time, steps: seq<Step>)
    ensures Reachable(c, Run(c, Init(now), steps))
  {
  }

  /** A request under key "k". */
  function Keyed(trace: string): NewTask {
    NewTask("", {}, SERVICE_PRINCIPAL, None, Some("k"), None, None, None, trace)
  }

  lemma CreateTwice(c: Config)
    ensures var s := Next(c, Next(c, Init(0), DoCreate(Keyed("a"), Committed)), DoCreate(Keyed("b"), Committed));
            && s.tasks.Keys == {0} && s.tasks[0].status.Queued? && |s.ledger| == 2
            && IsAssignment(s.ledger[0], 0) && IsAssignment(s.ledger[1], 0)
  {
    var s := Next(c, Init(0), DoCreate(Keyed("a"), Committed));
    assert s.ledger == [Receipt(0, 0, AssignedReceipt(Keyed("a"), 0, s.tasks[0]), true)];
    assert s.keys == map["k" := 0] && s.tasks.Keys == {0};
    var d := AssignedReceipt(Keyed("b"), 0, s.tasks[0]);
    assert Hash(s.ledger[0].says) != Hash(d);
    assert !Stored(s.ledger, d);
  }

  lemma CancelQueued(c: Config, s: State)
    requires s.tasks.Keys == {0} && s.tasks[0].status.Queued? && |s.ledger| == 2 && IsAssignment(s.ledger[0], 0)
    ensures var s' := Next(c, s, DoCancel(0, SERVICE_PRINCIPAL, "", true, "", Committed, Committed));
            0 in s'.tasks && s'.tasks[0].status.Canceled? && s.ledger <= s'.ledger
  {
    hide Obligation, Settle, ResultReady, LeasesOn;
    var o := Obligation(s.ledger, 0, s.tasks[0].owner).value;
    var owner := s.ledger[o].says.to;
    var row := Finished(s.tasks[0], Canceled, None, "", s.now);
    var d := Statement(TaskCanceled, SERVICE_PRINCIPAL, owner, Some(0), None, [o],
                       CanceledBody(SERVICE_PRINCIPAL, "", s.now), "");
    NoticeOfCancel(row, owner, o);
    SettleCommits(s, 0, row, LeasesOn(s.leases, 0), d, Committed, Some(ResultReady(0, row, owner, o, "")), Committed);
  }

  lemma NoticeOfCancel(row: Task, owner: Principal, o: ReceiptId)
    ensures ResultReady(0, row, owner, o, "").rtype.TaskResultReady?
  {
  }

  lemma {:induction false} SameOutcomesSameCloses(h: Rows, m: Rows)
    requires Outcomes(h + m) == Outcomes(h)
    ensures Closes(h + m) == Closes(h)
  {
    if m == [] {
      assert h + m == h;
    } else {
      var n := |m| - 1;
      assert h + m == h + m[..n] + [m[n]];
      FoldAppend(h + m[..n], m[n]);
      OutcomesGrow(h, m[..n]);
      SameOutcomesSameCloses(h, m[..n]);
    }
  }

  lemma {:induction false} OutcomesGrow(h: Rows, m: Rows)
    ensures Outcomes(h) <= Outcomes(h + m)
  {
    if m == [] {
      assert h + m == h;
    } else {
      var n := |m| - 1;
      assert h + m == h + m[..n] + [m[n]];
      FoldAppend(h + m[..n], m[n]);
      OutcomesGrow(h, m[..n]);
    }
  }

  // ---------------------------------------------------------------------------------------
  // Replay
  // ---------------------------------------------------------------------------------------

  /** After any run without reconciliation, folding a task's receipts in append order gives back
      its status, its attempt, its lease and the lease's holder. */
  lemma LedgerReplay(c: Config, now: Time, steps: seq<Step>, t: TaskId)
    requires forall st :: st in steps ==> !st.DoReconcile?
    requires t in Run(c, Init(now), steps).tasks
    ensures var s := Run(c, Init(now), steps);
            var p := Replay(Of(s.ledger, t));
            && p.known && p.status == s.tasks[t].status && p.attempt == s.tasks[t].attempt
            && LeasesOn(s.leases, t) == (if p.lease.Some? then {p.lease.value} else {})
            && p.holder == (if p.lease.Some? then Some(s.leases[p.lease.value].worker) else None)
  {
    InitInv(c, now);
    RunKeeps(c, Init(now), steps);
    NothingLapses(c, Init(now), steps);
    var s := Run(c, Init(now), steps);
    assert SyncedTask(s, t);
    var p := Replay(Of(s.ledger, t));
    if p.lease.Some? {
      OnlyLease(s, t, p.lease.value);
    }
  }

  /** With reconciliation, a task still replays after any run exactly if no reconciliation has freed
      it since it last left the queue. */
  lemma ReplaysIffNotLapsed(c: Config, now: Time, steps: seq<Step>, t: TaskId)
    requires t in Run(c, Init(now), steps).tasks
    ensures SyncedTask(Run(c, Init(now), steps), t) <==> t !in Lapsed(c, Init(now), steps)
  {
    hide Run, Lapsed, Of, Replay, Inv;
    InitInv(c, now);
    RunKeeps(c, Init(now), steps);
  }

  lemma ReleaseDesyncs(s: State, w: WorkerId, owed: set<TaskId>, l: LeaseId)
    requires Tables(s) && Synced(s, {}) && l in Stale(s, w, owed)
    ensures !Synced(Reconcile(s, w, owed), {})
  {
    hide Of, Replay, IdsIssued;
    var s', t := Reconcile(s, w, owed), s.leases[l].task;
    assert IsActive(s.tasks[t].status);
    hide LeaseMatchesStatus;
    assert t in TasksOf(s.leases, Stale(s, w, owed));
    assert s'.tasks[t].status.Queued?;
    assert SyncedTask(s, t) && !SyncedTask(s', t);
  }

  /** Reconciliation writes no receipts: the ledger still replays to the tables afterwards exactly
      when there was no lease to release. */
  lemma ReplaySurvivesReconciliationIff(c: Config, s: State, w: WorkerId, owed: set<TaskId>)
    requires Inv(c, s) && Synced(s, {})
    ensures Synced(Reconcile(s, w, owed), {}) <==> Stale(s, w, owed) == {}
  {
    hide Of, Replay, Records, Accounts, Pending, LeasesInLifetime, Tables, Synced, Tracks;
    var s' := Reconcile(s, w, owed);
    if l :| l in Stale(s, w, owed) {
      ReleaseDesyncs(s, w, owed, l);
    } else {
      assert s'.tasks == s.tasks && s'.leases == s.leases;
      assert s' == s;
    }
  }

  // ---------------------------------------------------------------------------------------
  // Lifetime and attempts
  // ---------------------------------------------------------------------------------------

  lemma FinishValidates(c: Config, s: State, k: CallId, trace: string, v: Verdict, w: Verdict)
    requires k in s.calls && Finish(c, s, k, trace, v, w).reply.Ok?
    ensures Validates(s, s.calls[k].task, s.calls[k].lease, s.calls[k].worker)
  {
    hide Settle;
  }

  /** One lease id can authorise the end of its task only inside a fixed window after it was
      acquired, whatever renewals were asked for and granted in between. */
  lemma LeaseWindow(c: Config, s: State, l: LeaseId, steps: seq<Step>, k: CallId, trace: string, v: Verdict, w: Verdict)
    requires Reachable(c, s) && l in s.leases
    requires var s' := Run(c, s, steps);
             k in s'.calls && s'.calls[k].lease == l && Finish(c, s', k, trace, v, w).reply.Ok?
    ensures var s' := Run(c, s, steps);
            && l in s'.leases && s'.leases[l].renewals <= Max(0, c.maxLeaseRenewals)
            && s'.now < s.leases[l].acquiredAt + Max(c.maxLeaseTtl, c.maxLeaseLifetime + c.maxLeaseTtl) * SECOND
  {
    hide Reachable, Run, Finish, Records, Accounts, Pending, LeaseMatchesStatus;
    ReachableInv(c, s);
    RunKeeps(c, s, steps);
    RunMoves(c, s, steps);
    var s' := Run(c, s, steps);
    FinishValidates(c, s', k, trace, v, w);
    assert InLifetime(c, s'.leases[l]);
  }

  /** The step is a `fail` call that commits on `t`. */
  ghost predicate CommitsFail(c: Config, s: State, step: Step, t: TaskId) {
    && step.DoFinish? && step.call in s.calls
    && s.calls[step.call].FailCall? && s.calls[step.call].task == t
    && Apply(c, s, step).reply.Ok?
  }

  /** How many `fail` calls commit on `t` in a run. */
  ghost function FailCommits(c: Config, s: State, steps: seq<Step>, t: TaskId): nat
    decreases |steps|
  {
    if steps == [] then 0
    else
      var n := |steps| - 1;
      FailCommits(c, s, steps[..n], t) + (if CommitsFail(c, Run(c, s, steps[..n]), steps[n], t) then 1 else 0)
  }

  /** Failures a row has seen: its attempts, and its end if that was a failure. */
  function Failures(s: State, t: TaskId): nat {
    if t in s.tasks then s.tasks[t].attempt + (if s.tasks[t].status.Failed? then 1 else 0) else 0
  }

  lemma FailCommitCounts(c: Config, s: State, step: Step, t: TaskId)
    requires Inv(c, s)
    ensures Failures(s, t) + (if CommitsFail(c, s, step, t) then 1 else 0) <= Failures(Next(c, s, step), t)
  {
    hide Records, Accounts, Pending, LeaseMatchesStatus, LeasesInLifetime, CreateTask, CancelTask, LeaseNext,
         RenewLease, StartTask, ReportProgress, BeginComplete, BeginFail, Finish, ExpireLease, Reconcile, Acknowledge;
    NextMoves(c, s, step);
    if CommitsFail(c, s, step, t) {
      var k := s.calls[step.call];
      FinishValidates(c, s, step.call, step.trace, step.v, step.w);
      Holder(s, t, k.lease, k.worker);
      CommittedFail(c, s, step.call, step.trace, step.v, step.w);
    }
  }

  lemma CommittedFail(c: Config, s: State, k: CallId, trace: string, v: Verdict, w: Verdict)
    requires k in s.calls && s.calls[k].FailCall? && Finish(c, s, k, trace, v, w).reply.Ok?
    ensures var t, s' := s.calls[k].task, Finish(c, s, k, trace, v, w).state;
            && t in s.tasks && t in s'.tasks
            && (s'.tasks[t].attempt == s.tasks[t].attempt + 1 ||
                (s'.tasks[t].attempt == s.tasks[t].attempt && s'.tasks[t].status.Failed?))
  {
    hide Settle, RetryReceipt, FailedReceipt, ResultReady, Backoff;
  }

  lemma {:induction false} FailCommitsCounted(c: Config, s: State, steps: seq<Step>, t: TaskId)
    requires Inv(c, s)
    ensures Failures(s, t) + FailCommits(c, s, steps, t) <= Failures(Run(c, s, steps), t)
    decreases |steps|
  {
    hide Inv, CommitsFail, Next, Failures;
    if steps == [] {
    } else {
      var n := |steps| - 1;
      FailCommitsCounted(c, s, steps[..n], t);
      RunKeeps(c, s, steps[..n]);
      FailCommitCounts(c, Run(c, s, steps[..n]), steps[n], t);
    }
  }

  /** A task's attempts never exceed max(0, max_attempts - 1) and are the number of its
      retry_scheduled receipts; and over its whole life at most max(1, max_attempts) `fail` calls
      commit on it. */
  lemma AttemptAccounting(c: Config, now: Time, steps: seq<Step>, t: TaskId)
    requires t in Run(c, Init(now), steps).tasks
    ensures var s := Run(c, Init(now), steps);
            && s.tasks[t].attempt <= Max(0, s.tasks[t].maxAttempts - 1)
            && s.tasks[t].attempt == Count(Of(s.ledger, t), TaskRetryScheduled)
            && FailCommits(c, Init(now), steps, t) <= Max(1, s.tasks[t].maxAttempts)
  {
    InitInv(c, now);
    RunKeeps(c, Init(now), steps);
    FailCommitsCounted(c, Init(now), steps, t);
    assert Accounted(Run(c, Init(now), steps).tasks[t], Of(Run(c, Init(now), steps).ledger, t));
  }

  lemma OneExpiryCostsNoAttempt(c: Config, s: State, step: Step, t: TaskId)
    requires t in s.tasks && step.DoExpire?
    ensures t in Next(c, s, step).tasks && Next(c, s, step).tasks[t].attempt == s.tasks[t].attempt
  {
    hide Settle, ExpiredReceipt, Escalation;
  }

  /** Losing leases costs no attempts: any number of expiries, committed or rolled back, leaves
      every task's attempt as it was. */
  lemma {:induction false} ExpiryCostsNoAttempt(c: Config, s: State, steps: seq<Step>, t: TaskId)
    requires t in s.tasks && forall st :: st in steps ==> st.DoExpire?
    ensures t in Run(c, s, steps).tasks && Run(c, s, steps).tasks[t].attempt == s.tasks[t].attempt
    decreases |steps|
  {
    hide Next;
    if steps == [] {
    } else {
      var n := |steps| - 1;
      ExpiryCostsNoAttempt(c, s, steps[..n], t);
      OneExpiryCostsNoAttempt(c, Run(c, s, steps[..n]), steps[n], t);
    }
  }

  // ---------------------------------------------------------------------------------------
  // Claiming
  // ---------------------------------------------------------------------------------------

  /** Every task a request claims is queued, its time has come, its type is accepted and its
      requirements are among the capabilities offered; and no such task that was left unclaimed has a
      higher priority than a claimed one, or the same and was created earlier, although the capability
      filter runs only after the limit. */
  lemma NoPriorityInversion(c: Config, s: State, w: WorkerId, caps: set<string>, types: set<string>, max: int,
                            ttl: Option<int>, sel: seq<TaskId>, trace: string, vs: seq<Verdict>, t: TaskId, u: TaskId)
    requires Reachable(c, s) && LeaseNext(c, s, w, caps, types, max, ttl, sel, trace, vs).reply.Ok?
    requires t in s.tasks && u in s.tasks
    requires var s' := LeaseNext(c, s, w, caps, types, max, ttl, sel, trace, vs).state;
             t in s'.tasks && s'.tasks[t] != s.tasks[t]
    ensures s.tasks[t].status.Queued? && s.tasks[t].capabilities <= caps
    ensures s.tasks[t].nextEligibleAt.Some? ==> s.tasks[t].nextEligibleAt.value <= s.now
    ensures types == {} || s.tasks[t].taskType in types
    ensures var s' := LeaseNext(c, s, w, caps, types, max, ttl, sel, trace, vs).state;
            && s'.tasks[t].status.Leased?
            && (&& s.tasks[u].status.Queued? && s'.tasks[u] == s.tasks[u] && s.tasks[u].capabilities <= caps
                && (s.tasks[u].nextEligibleAt.Some? ==> s.tasks[u].nextEligibleAt.value <= s.now)
                && (types == {} || s.tasks[u].taskType in types) ==>
                  || s.tasks[u].priority < s.tasks[t].priority
                  || (s.tasks[u].priority == s.tasks[t].priority && s.tasks[t].createdAt <= s.tasks[u].createdAt))
  {
    hide Reachable, Inv, GrantAll, Matching, IsSelection, Tracks;
    ReachableInv(c, s);
    var m := Matching(s.tasks, sel, caps);
    GrantAllKeeps(c, s, m, w, caps, ttl, trace, vs) by {
      SelectedAreQueued(s, types, Min(max, MAX_CLAIM), sel);
    }
    assert t in m;
    SelectedFirst(s, types, Min(max, MAX_CLAIM), sel, t, u);
  }

  lemma SelectedAreQueued(s: State, types: set<string>, limit: nat, sel: seq<TaskId>)
    requires IsSelection(s, types, limit, sel)
    ensures forall t :: t in sel ==> t in s.tasks && s.tasks[t].status.Queued?
    ensures forall i, j :: 0 <= i < j < |sel| ==> sel[i] != sel[j]
  {
  }

  lemma SelectedFirst(s: State, types: set<string>, limit: nat, sel: seq<TaskId>, t: TaskId, u: TaskId)
    requires IsSelection(s, types, limit, sel) && t in sel && u in s.tasks
    ensures Eligible(s, t, types) && (u !in sel && Eligible(s, u, types) ==> !Precedes(s.tasks[u], s.tasks[t]))
  {
    var i :| 0 <= i < |sel| && sel[i] == t;
    assert Eligible(s, sel[i], types);
  }

  // ---------------------------------------------------------------------------------------
  // Reconciliation
  // ---------------------------------------------------------------------------------------

  /** Some lease of `w` on `t` is not backed by the external ledger. */
  ghost predicate Unbacked(s: State, w: WorkerId, owed: set<TaskId>, t: TaskId) {
    t !in owed && exists l :: l in s.leases && s.leases[l].worker == w && s.leases[l].task == t
  }

  lemma FreedIffUnbacked(s: State, w: WorkerId, owed: set<TaskId>, t: TaskId)
    ensures t in TasksOf(s.leases, Stale(s, w, owed)) <==> Unbacked(s, w, owed, t)
  {
    if Unbacked(s, w, owed, t) {
      var l :| l in s.leases && s.leases[l].worker == w && s.leases[l].task == t;
      assert l in Stale(s, w, owed);
    }
  }

  lemma ReconcileRows(s: State, w: WorkerId, owed: set<TaskId>)
    requires Tables(s)
    ensures var s' := Reconcile(s, w, owed);
            && s'.tasks.Keys == s.tasks.Keys
            && forall t :: t in s.tasks ==>
                 s'.tasks[t] == (if Unbacked(s, w, owed, t) then s.tasks[t].(status := Queued) else s.tasks[t])
  {
    forall t | t in s.tasks
      ensures Reconcile(s, w, owed).tasks[t] ==
                (if Unbacked(s, w, owed, t) then s.tasks[t].(status := Queued) else s.tasks[t])
    {
      FreedIffUnbacked(s, w, owed, t);
    }
  }

  lemma ReconcileTwice(s: State, w: WorkerId, owed: set<TaskId>)
    ensures Reconcile(Reconcile(s, w, owed), w, owed) == Reconcile(s, w, owed)
  {
    var s' := Reconcile(s, w, owed);
    assert Stale(s', w, owed) == {};
    assert Reconcile(s', w, owed).tasks == s'.tasks;
  }

  /** After reconciliation a worker holds exactly its former leases on owed tasks. Other workers'
      leases, finished tasks and the ledger are untouched; a task changes exactly when its lease
      was released, and then only its status; and doing it again changes nothing. */
  lemma ReconcileExact(c: Config, s: State, w: WorkerId, owed: set<TaskId>)
    requires Reachable(c, s)
    ensures var s' := Reconcile(s, w, owed);
            && (forall l :: l in s'.leases <==> l in s.leases && (s.leases[l].worker == w ==> s.leases[l].task in owed))
            && (forall l :: l in s'.leases ==> s'.leases[l] == s.leases[l])
            && s'.tasks.Keys == s.tasks.Keys
            && (forall t :: t in s.tasks ==>
                  s'.tasks[t] == (if Unbacked(s, w, owed, t) then s.tasks[t].(status := Queued) else s.tasks[t]))
            && (forall t :: t in s.tasks && Unbacked(s, w, owed, t) ==> IsActive(s.tasks[t].status))
            && s'.ledger == s.ledger
            && Inv(c, s')
            && Reconcile(s', w, owed) == s'
  {
    hide Reachable, Records, Accounts, Pending, LeasesInLifetime, IdsIssued;
    ReachableInv(c, s);
    ReconcileKeeps(c, s, w, owed);
    ReconcileRows(s, w, owed);
    ReconcileTwice(s, w, owed);
  }

  // ---------------------------------------------------------------------------------------
  // The sweep
  // ---------------------------------------------------------------------------------------

  lemma RequeueTablesIff(tasks: map<TaskId, Task>, leases: map<LeaseId, Lease>, t: TaskId, row: Task, id: LeaseId)
    requires LeaseMatchesStatus(tasks, leases) && t in tasks && row.status.Queued?
    requires id in leases ==> leases[id].task == t
    ensures LeaseMatchesStatus(tasks[t := row], leases - {id}) <==> LeasesOn(leases, t) <= {id}
  {
    var leases', tasks' := leases - {id}, tasks[t := row];
    if l :| l in LeasesOn(leases, t) && l != id {
      assert l in leases' && leases'[l].task == t && tasks'[t].status.Queued?;
    } else {
      forall l | l in leases' ensures leases[l].task != t {
        assert l in LeasesOn(leases, t) ==> l == id;
      }
      forall u | u in tasks' && IsActive(tasks'[u].status) ensures exists l :: l in leases' && leases'[l].task == u {
        var l :| l in leases && leases[l].task == u;
        assert l in leases';
      }
    }
  }

  /** A sweep iteration does not look at the lease table again. Working on a row read earlier, it
      keeps leases and statuses together exactly when no other lease has been granted on the task
      in the meantime. */
  lemma StaleSweepIff(c: Config, s: State, id: LeaseId, lease: Lease, jitter: nat, trace: string, v: Verdict,
                      w: Verdict)
    requires Reachable(c, s) && (id in s.leases ==> s.leases[id].task == lease.task)
    requires ExpireBody(c, s, id, lease, jitter, trace, v, w).reply.Ok?
    ensures var s' := ExpireBody(c, s, id, lease, jitter, trace, v, w).state;
            LeaseMatchesStatus(s'.tasks, s'.leases) <==> LeasesOn(s.leases, lease.task) <= {id}
  {
    hide Reachable, Settle, ExpiredReceipt, Escalation, Records, Accounts, Pending, LeaseMatchesStatus,
         LeasesInLifetime;
    ReachableInv(c, s);
    var s' := ExpireBody(c, s, id, lease, jitter, trace, v, w).state;
    assert s'.leases == s.leases - {id};
    RequeueTablesIff(s.tasks, s.leases, lease.task, s'.tasks[lease.task], id);
  }

  /** A sweep iteration has done its work properly on task `t`: the invariant holds, rows have made
      legal moves only, the status it wrote is an edge of the table, and no lease that had not expired
      is gone. */
  ghost predicate SoundSweep(c: Config, s: State, s': State, t: TaskId) {
    && Inv(c, s') && Moves(s, s')
    && t in s.tasks && t in s'.tasks && CanTransition(s.tasks[t].status, s'.tasks[t].status)
    && forall l :: l in s.leases && l !in s'.leases ==> s.leases[l].expiresAt < s.now
  }

  lemma FreshRowIsSound(c: Config, s: State, id: LeaseId, lease: Lease, jitter: nat, trace: string, v: Verdict,
                        w: Verdict)
    requires Inv(c, s) && id in s.leases && s.leases[id].task == lease.task && s.leases[id].expiresAt < s.now
    requires ExpireBody(c, s, id, lease, jitter, trace, v, w).reply.Ok?
    ensures SoundSweep(c, s, ExpireBody(c, s, id, lease, jitter, trace, v, w).state, lease.task)
  {
    hide Records, Pending, LeaseMatchesStatus, LeasesInLifetime, Settle, Obligation, Of, Count, Outcomes, Closes,
         Replay, Tracks, Moves;
    var t := lease.task;
    var row := s.tasks[t];
    ActiveWhenHeld(s, id);
    OnlyLease(s, t, id);
    assert Accounted(row, Of(s.ledger, t));
    var d := ExpiredReceipt(s.ledger, t, row, id, lease, trace);
    var e := Escalation(c, s.ledger, t, row, id, lease, trace);
    SettleKeeps(c, s, t, RequeuedOnExpiry(row, s.now, jitter), {id}, d, v, e, w);
    SettleMoves(s, t, RequeuedOnExpiry(row, s.now, jitter), {id}, d, v, e, w);
  }

  lemma ActiveWhenHeld(s: State, id: LeaseId)
    requires Tables(s) && id in s.leases
    ensures s.leases[id].task in s.tasks && IsActive(s.tasks[s.leases[id].task].status)
  {
  }

  lemma SweptRow(c: Config, s: State, id: LeaseId, lease: Lease, jitter: nat, trace: string, v: Verdict, w: Verdict)
    requires ExpireBody(c, s, id, lease, jitter, trace, v, w).reply.Ok?
    ensures var s' := ExpireBody(c, s, id, lease, jitter, trace, v, w).state;
            && lease.task in s.tasks && !IsTerminal(s.tasks[lease.task].status)
            && s'.tasks == s.tasks[lease.task := RequeuedOnExpiry(s.tasks[lease.task], s.now, jitter)]
            && (id !in s.leases ==> s'.leases == s.leases)
            && (id in s.leases && s.leases[id].task == lease.task ==> s'.leases == s.leases - {id})
  {
    hide Settle, ExpiredReceipt, Escalation, RequeuedOnExpiry;
  }

  /** The code does not ask again whether the lease it has read is still there and still expired.
      Whatever has happened since it was read, a committed iteration does its work properly exactly
      if it is. If it has been renewed, a live holder is evicted; if it has gone and the task waits in
      the queue, QUEUED is written over QUEUED; if it has gone and the task is leased again, the task
      is queued under a standing lease. */
  lemma SweepSoundIff(c: Config, s: State, id: LeaseId, steps: seq<Step>, jitter: nat, trace: string, v: Verdict,
                      w: Verdict)
    requires Reachable(c, s) && Expired(c, s, id)
    requires ExpireBody(c, Run(c, s, steps), id, s.leases[id], jitter, trace, v, w).reply.Ok?
    ensures var later := Run(c, s, steps);
            SoundSweep(c, later, ExpireBody(c, later, id, s.leases[id], jitter, trace, v, w).state, s.leases[id].task)
            <==> id in later.leases && later.leases[id].expiresAt < later.now
  {
    hide Reachable, Run, Inv, ExpireBody, Moves, RequeuedOnExpiry;
    ReachableInv(c, s);
    RunKeeps(c, s, steps);
    RunMoves(c, s, steps);
    var later, lease := Run(c, s, steps), s.leases[id];
    assert id < s.nextLease by { LeaseIssued(c, s, id); }
    SweptRow(c, later, id, lease, jitter, trace, v, w);
    if id in later.leases && later.leases[id].expiresAt < later.now {
      FreshRowIsSound(c, later, id, lease, jitter, trace, v, w);
    } else if id !in later.leases {
      GoneRowIsUnsound(c, later, id, lease, jitter, trace, v, w);
    }
  }

  lemma LeaseIssued(c: Config, s: State, id: LeaseId)
    requires Inv(c, s) && id in s.leases
    ensures id < s.nextLease
  {
  }

  lemma GoneRowIsUnsound(c: Config, s: State, id: LeaseId, lease: Lease, jitter: nat, trace: string, v: Verdict,
                         w: Verdict)
    requires Inv(c, s) && id !in s.leases && ExpireBody(c, s, id, lease, jitter, trace, v, w).reply.Ok?
    ensures !SoundSweep(c, s, ExpireBody(c, s, id, lease, jitter, trace, v, w).state, lease.task)
  {
    hide Records, Accounts, Pending, Lifetimes, Moves;
    SweptRow(c, s, id, lease, jitter, trace, v, w);
    hide ExpireBody;
    var s' := ExpireBody(c, s, id, lease, jitter, trace, v, w).state;
    assert s'.tasks[lease.task].status.Queued?;
    if IsActive(s.tasks[lease.task].status) {
      var l :| l in s.leases && s.leases[l].task == lease.task;
      assert l in s'.leases;
    }
  }

  /** A state whose only task is task 0, queued and eligible, with no lease. */
  predicate OneQueued(c: Config, s: State) {
    s.tasks.Keys == {0} && EligibleRow(s.tasks[0], s.now, {}) && s.tasks[0].capabilities == {}
    && s.tasks[0].instance == c.instance && s.leases == map[]
  }

  function ClaimStep(ttl: Option<int>): Step { DoLeaseNext("w", {}, {}, 1, ttl, [0], "", []) }

  lemma OneSelected(c: Config, s: State)
    requires OneQueued(c, s)
    ensures 0 in s.tasks && Matching(s.tasks, [0], {}) == [0] && IsSelection(s, {}, 1, [0])
  {
    assert [0][..0] == [];
    assert Matching(s.tasks, [], {}) == [];
  }

  lemma OneGranted(c: Config, s: State, ttl: Option<int>)
    requires 0 in s.tasks
    ensures GrantAll(c, s, [0], "w", {}, ttl, "", []) == Grant(c, s, 0, "w", {}, ttl, "", Committed)
  {
    hide Grant;
    assert [0][..0] == [];
    assert GrantAll(c, s, [], "w", {}, ttl, "", []) == Some(s);
  }

  lemma GrantedOnly(c: Config, s: State, ttl: Option<int>)
    requires OneQueued(c, s)
    ensures var g := Grant(c, s, 0, "w", {}, ttl, "", Committed);
            g.Some? && g.value == s.(tasks := map[0 := s.tasks[0].(status := Leased)], ledger := g.value.ledger,
                                     leases := map[s.nextLease := NewLease(c, s.now, 0, "w", ttl)],
                                     nextLease := s.nextLease + 1)
  {
    hide Appended, Obligation, NewLease;
    assert s.tasks[0 := s.tasks[0].(status := Leased)] == map[0 := s.tasks[0].(status := Leased)];
  }

  lemma ClaimOnlyTask(c: Config, s: State, ttl: Option<int>)
    requires OneQueued(c, s)
    ensures var s' := Next(c, s, ClaimStep(ttl));
            && s'.leases == map[s.nextLease := NewLease(c, s.now, 0, "w", ttl)] && s'.nextLease == s.nextLease + 1
            && s'.tasks == map[0 := s.tasks[0].(status := Leased)] && s'.now == s.now
  {
    hide OneQueued, Grant, GrantAll, IsSelection, Matching, NewLease;
    OneSelected(c, s);
    OneGranted(c, s, ttl);
    GrantedOnly(c, s, ttl);
  }

  lemma ExpireOnlyTask(c: Config, s: State, l: LeaseId)
    requires s.tasks.Keys == {0} && s.tasks[0].status.Leased? && s.tasks[0].capabilities == {}
    requires s.tasks[0].instance == c.instance
    requires s.leases.Keys == {l} && s.leases[l].task == 0 && s.leases[l].expiresAt < s.now
    ensures var s' := Next(c, s, DoExpire(l, 0, "", Committed, Committed));
            OneQueued(c, s') && s'.nextLease == s.nextLease && s'.now == s.now
  {
    hide Appended, Obligation;
  }

  lemma StaleRowSpoils(c: Config, s: State, l: LeaseId, m: LeaseId, lease: Lease)
    requires lease.task == 0 && 0 in s.tasks && s.tasks[0].status.Leased?
    requires l != m && m in s.leases && s.leases[m].task == 0
    ensures var r := ExpireBody(c, s, l, lease, 0, "", Committed, Committed);
            r.reply.Ok? && !LeaseMatchesStatus(r.state.tasks, r.state.leases)
  {
    hide Appended, Obligation;
    var s' := ExpireBody(c, s, l, lease, 0, "", Committed, Committed).state;
    assert m in s'.leases && s'.leases[m].task == 0 && s'.tasks[0].status.Queued?;
  }

  /** Under every configuration this happens: a sweep reads an expired lease, another sweep expires
      it and the task is claimed again, and then the first sweep, working on the row it has read,
      queues the task although the new lease stands. */
  lemma StaleSweepBreaks(c: Config) returns (before: seq<Step>, between: seq<Step>, l: LeaseId)
    ensures var s := Run(c, Init(0), before);
            && Expired(c, s, l)
            && var s' := Run(c, s, between);
               var r := ExpireBody(c, s', l, s.leases[l], 0, "", Committed, Committed);
               r.reply.Ok? && !LeaseMatchesStatus(r.state.tasks, r.state.leases)
  {
    before, l := ReadExpired(c, None);
    hide ClaimStep, NewLease, Next, ExpireBody, LeaseMatchesStatus, Init;
    var s := Run(c, Init(0), before);
    var expire := DoExpire(l, 0, "", Committed, Committed);
    between := [expire, ClaimStep(None)];
    ExpireOnlyTask(c, s, l);
    var queued := Next(c, s, expire);
    ClaimOnlyTask(c, queued, None);
    NewLeaseFields(c, queued.now, None);
    RunOne(c, s, expire);
    assert between[..1] == [expire];
    assert Run(c, s, between) == Next(c, queued, ClaimStep(None));
    assert l < queued.nextLease by { LeaseReached(c, before, l); }
    StaleRowSpoils(c, Run(c, s, between), l, queued.nextLease, s.leases[l]);
  }

  lemma LeaseReached(c: Config, steps: seq<Step>, l: LeaseId)
    requires l in Run(c, Init(0), steps).leases
    ensures l < Run(c, Init(0), steps).nextLease
  {
    hide Run, Inv;
    InitInv(c, 0);
    RunKeeps(c, Init(0), steps);
    LeaseIssued(c, Run(c, Init(0), steps), l);
  }

  /** Under every configuration a stale row cuts a delay short: two sweeps read the same expired lease,
      one queues the task for later, and the other makes it eligible at once. */
  lemma StaleSweepRewrites(c: Config) returns (before: seq<Step>, between: seq<Step>, l: LeaseId)
    ensures var s := Run(c, Init(0), before);
            && Expired(c, s, l)
            && var s' := Run(c, s, between);
               var r := ExpireBody(c, s', l, s.leases[l], 0, "", Committed, Committed);
               && r.reply.Ok? && 0 in s'.tasks && 0 in r.state.tasks
               && s'.tasks[0].status.Queued? && s'.tasks[0].nextEligibleAt == Some(s'.now + 5 * SECOND)
               && r.state.tasks[0].status.Queued? && r.state.tasks[0].nextEligibleAt == Some(s'.now)
  {
    before, l := ReadExpired(c, None);
    hide Next, ExpireBody, Run, Init, RequeuedOnExpiry;
    var s := Run(c, Init(0), before);
    var expire := DoExpire(l, 5 * SECOND, "", Committed, Committed);
    between := [expire];
    RunOne(c, s, expire);
    ExpireLater(c, s, l);
    StaleRowCommits(c, Next(c, s, expire), l, s.leases[l]);
    SweptRow(c, Next(c, s, expire), l, s.leases[l], 0, "", Committed, Committed);
    RequeuedAt(Next(c, s, expire).tasks[0], s.now);
  }

  /** And it evicts a live holder, wherever the configuration allows one renewal and two seconds of
      life: the holder renews an expired lease that a sweep has read, and loses it all the same. */
  lemma StaleSweepEvicts(c: Config) returns (before: seq<Step>, between: seq<Step>, l: LeaseId)
    requires c.maxLeaseRenewals >= 1 && c.maxLeaseTtl >= 1 && c.maxLeaseLifetime >= 2
    ensures var s := Run(c, Init(0), before);
            && Expired(c, s, l)
            && var s' := Run(c, s, between);
               var r := ExpireBody(c, s', l, s.leases[l], 0, "", Committed, Committed);
               && r.reply.Ok? && Validates(s', 0, l, "w") && l !in r.state.leases
  {
    before, l := ReadExpired(c, Some(1));
    hide Next, ExpireBody, Run, Init, RequeuedOnExpiry;
    var s := Run(c, Init(0), before);
    var renew := DoRenew(0, l, "w", Some(1));
    between := [renew];
    RunOne(c, s, renew);
    RenewExpired(c, s, l);
    StaleRowCommits(c, Next(c, s, renew), l, s.leases[l]);
    SweptRow(c, Next(c, s, renew), l, s.leases[l], 0, "", Committed, Committed);
  }

  lemma RunOne(c: Config, s: State, step: Step)
    ensures Run(c, s, [step]) == Next(c, s, step)
  {
    hide Next;
    assert [step][..0] == [];
    assert Run(c, s, [step][..0]) == s;
  }

  /** A run that ends with the only task's lease expired by a microsecond. */
  lemma ReadExpired(c: Config, ttl: Option<int>) returns (before: seq<Step>, l: LeaseId)
    ensures var s := Run(c, Init(0), before);
            && Expired(c, s, l) && s.tasks.Keys == {0} && s.tasks[0].status.Leased? && s.tasks[0].capabilities == {}
            && s.tasks[0].instance == c.instance && s.leases.Keys == {l} && s.leases[l].task == 0
            && s.leases[l] == NewLease(c, s.leases[l].acquiredAt, 0, "w", ttl)
            && s.now == Max(s.leases[l].acquiredAt, s.leases[l].expiresAt + 1)
  {
    hide ClaimStep, NewLease, Next;
    var req := NewTask("", {}, SERVICE_PRINCIPAL, None, None, None, None, None, "");
    var create := DoCreate(req, Committed);
    var s1 := Next(c, Init(0), create);
    CreateOnlyTask(c, req);
    ClaimOnlyTask(c, s1, ttl);
    var s2 := Next(c, s1, ClaimStep(ttl));
    l := s1.nextLease;
    var at := s2.leases[l].expiresAt + 1;
    TickOnly(c, s2, at);
    NewLeaseFields(c, s1.now, ttl);
    before := [create, ClaimStep(ttl), Tick(at)];
    assert before[..2][..1][..0] == [] && before[..2][..1] == [create] && before[..2] == [create, ClaimStep(ttl)];
    assert Run(c, Init(0), before[..2][..1]) == s1;
    assert Run(c, Init(0), before[..2]) == s2;
    assert Run(c, Init(0), before) == Next(c, s2, Tick(at));
  }

  lemma NewLeaseFields(c: Config, now: Time, ttl: Option<int>)
    ensures var l := NewLease(c, now, 0, "w", ttl); l.task == 0 && l.acquiredAt == now
  {
  }

  lemma ExpireLater(c: Config, s: State, l: LeaseId)
    requires Expired(c, s, l) && s.tasks.Keys == {0} && s.leases.Keys == {l} && s.leases[l].task == 0
    ensures var s' := Next(c, s, DoExpire(l, 5 * SECOND, "", Committed, Committed));
            && s'.tasks.Keys == {0} && s'.tasks[0].status.Queued? && s'.leases == map[] && s'.now == s.now
            && s'.tasks[0].nextEligibleAt == Some(s.now + 5 * SECOND)
  {
    hide Appended, Obligation;
  }

  lemma RenewExpired(c: Config, s: State, l: LeaseId)
    requires c.maxLeaseRenewals >= 1 && c.maxLeaseTtl >= 1 && c.maxLeaseLifetime >= 2
    requires Expired(c, s, l) && s.tasks.Keys == {0} && s.tasks[0].status.Leased? && s.leases.Keys == {l}
    requires s.leases[l] == NewLease(c, s.leases[l].acquiredAt, 0, "w", Some(1))
    requires s.now == Max(s.leases[l].acquiredAt, s.leases[l].expiresAt + 1)
    ensures var s' := Next(c, s, DoRenew(0, l, "w", Some(1)));
            Validates(s', 0, l, "w") && s'.tasks == s.tasks && s'.leases.Keys == {l}
  {
    var lease := s.leases[l];
    assert lease.expiresAt == lease.acquiredAt + SECOND && s.now - lease.acquiredAt == SECOND + 1;
    assert LifetimeSeconds(s.now, lease) == 1;
  }

  lemma StaleRowCommits(c: Config, s: State, l: LeaseId, lease: Lease)
    requires lease.task == 0 && 0 in s.tasks && !IsTerminal(s.tasks[0].status)
    ensures ExpireBody(c, s, l, lease, 0, "", Committed, Committed).reply.Ok?
  {
    hide Appended, Obligation;
  }

  lemma RequeuedAt(row: Task, now: Time)
    ensures RequeuedOnExpiry(row, now, 0).status.Queued? && RequeuedOnExpiry(row, now, 0).nextEligibleAt == Some(now)
  {
  }

  lemma CreateOnlyTask(c: Config, req: NewTask)
    requires req == NewTask("", {}, SERVICE_PRINCIPAL, None, None, None, None, None, "")
    ensures OneQueued(c, Next(c, Init(0), DoCreate(req, Committed)))
  {
    hide Appended;
  }

  lemma TickOnly(c: Config, s: State, at: Time)
    ensures Next(c, s, Tick(at)) == s.(now := Max(s.now, at))
  {
  }

  // ---------------------------------------------------------------------------------------
  // The lifetime bound
  // ---------------------------------------------------------------------------------------

  /** The bound the lifetime limit is meant to give. */
  ghost predicate AllExpireInTime(c: Config, s: State) {
    forall l :: l in s.leases ==>
      s.leases[l].expiresAt < s.leases[l].acquiredAt + (c.maxLeaseLifetime + c.maxLeaseTtl) * SECOND
  }

  /** Every lease there ever is has been renewed no more often than allowed, and ends less than the
      maximum lifetime plus the maximum ttl after it was acquired, unless it was never renewed
      past its first ttl. */
  lemma LeaseLifetime(c: Config, s: State, l: LeaseId)
    requires Reachable(c, s) && l in s.leases
    ensures 0 <= s.leases[l].renewals <= Max(0, c.maxLeaseRenewals)
    ensures var age := s.leases[l].expiresAt - s.leases[l].acquiredAt;
            age <= c.maxLeaseTtl * SECOND || age < (c.maxLeaseLifetime + c.maxLeaseTtl) * SECOND
  {
    hide Reachable, Tables, Records, Accounts, Pending;
    ReachableInv(c, s);
  }

  /** The bound holds in every reachable state exactly when the configured lifetime is positive. */
  lemma LifetimeBoundIff(c: Config)
    ensures (forall s :: Reachable(c, s) ==> AllExpireInTime(c, s)) <==> c.maxLeaseLifetime > 0
  {
    if c.maxLeaseLifetime > 0 {
      forall s | Reachable(c, s) ensures AllExpireInTime(c, s) {
        forall l | l in s.leases
          ensures s.leases[l].expiresAt < s.leases[l].acquiredAt + (c.maxLeaseLifetime + c.maxLeaseTtl) * SECOND
        {
          LeaseLifetime(c, s, l);
        }
      }
    } else {
      var s, l := LongestLease(c);
      assert !AllExpireInTime(c, s);
    }
  }

  /** Some run grants a lease of the full ttl. */
  lemma LongestLease(c: Config) returns (s: State, l: LeaseId)
    ensures Reachable(c, s) && l in s.leases
    ensures s.leases[l].expiresAt == s.leases[l].acquiredAt + c.maxLeaseTtl * SECOND
  {
    var ttl := Some(if c.maxLeaseTtl != 0 then c.maxLeaseTtl else 1);
    var req := NewTask("", {}, SERVICE_PRINCIPAL, None, None, None, None, None, "");
    var create := DoCreate(req, Committed);
    CreateOnlyTask(c, req);
    hide Next;
    var s1 := Next(c, Init(0), create);
    ClaimOnlyTask(c, s1, ttl);
    s := Next(c, s1, ClaimStep(ttl));
    l := s1.nextLease;
    var steps := [create, ClaimStep(ttl)];
    assert steps[..1] == [create] && steps[..1][..0] == [];
    assert Run(c, Init(0), steps[..1]) == s1;
    assert s == Run(c, Init(0), steps);
  }

  // ---------------------------------------------------------------------------------------
  // An unreachable ledger
  // ---------------------------------------------------------------------------------------

  lemma {:induction false} OneUndeliveredStopsAll(c: Config, s: State, ts: seq<TaskId>, i: nat, w: WorkerId,
                                                  caps: set<string>, ttl: Option<int>, trace: string, vs: seq<Verdict>)
    requires (forall t :: t in ts ==> t in s.tasks) && i < |ts|
    requires VerdictAt(vs, i).Buffered? || VerdictAt(vs, i).Unbufferable?
    ensures GrantAll(c, s, ts, w, caps, ttl, trace, vs).None?
  {
    hide Appended, Obligation, Linked, NewLease;
    var n := |ts| - 1;
    if i < n {
      OneUndeliveredStopsAll(c, s, ts[..n], i, w, caps, ttl, trace, vs);
    }
  }

  /** If the ledger cannot be reached for one acceptance of a claim, the whole claim is undone: no
      lease, no status and no receipt of it remains, for the other tasks either. A refused
      acceptance, by contrast, still grants its lease. */
  lemma UnreachableGrantsNothing(c: Config, s: State, w: WorkerId, caps: set<string>, types: set<string>, max: int,
                                 ttl: Option<int>, sel: seq<TaskId>, trace: string, vs: seq<Verdict>, i: nat)
    requires i < |Matching(s.tasks, sel, caps)|
    requires VerdictAt(vs, i).Buffered? || VerdictAt(vs, i).Unbufferable?
    ensures LeaseNext(c, s, w, caps, types, max, ttl, sel, trace, vs).state == s
  {
    OneUndeliveredStopsAll(c, s, Matching(s.tasks, sel, caps), i, w, caps, ttl, trace, vs);
  }

  /** The task is held and its lease in place even if the ledger refused the acceptance. */
  lemma RefusedStillGranted(c: Config, s: State, t: TaskId, w: WorkerId, caps: set<string>, ttl: Option<int>,
                            trace: string)
    requires t in s.tasks
    ensures var r := Grant(c, s, t, w, caps, ttl, trace, Refused);
            && r.Some? && s.nextLease in r.value.leases && r.value.leases[s.nextLease].task == t
            && r.value.tasks[t].status.Leased?
  {
    hide Appended, Obligation;
  }
}
