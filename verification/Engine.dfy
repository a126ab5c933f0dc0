/** The engine over its tables, updated in place: rows are rewritten one after the other inside a
    savepoint, and an emission that raises restores what the savepoint saved. Each operation does to
    the tables what its step of the lifecycle says and keeps the invariant, so that all that is
    proved of runs holds of calls. */
module Engine {
  import opened Domain
  import opened Ledger
  import L = Lifecycle
  import I = LifecycleInvariant
  import G = Guarantees

  /** What reconciliation found and did. */
  datatype Report = Report(heldByLedger: nat, localLeases: nat, released: seq<LeaseId>, settled: seq<TaskId>,
                           missing: set<TaskId>)

  /** How many leases one sweep looks at. */
  const SWEEP_LIMIT: nat := 100

  class AsyncGate {
    const config: Config
    var now: Time
    var tasks: map<TaskId, Task>
    var leases: map<LeaseId, Lease>
    var ledger: Rows
    var keys: map<string, TaskId>
    var calls: map<CallId, L.Call>
    var nextTask: TaskId
    var nextLease: LeaseId

    ghost function View(): L.State
      reads this
    {
      L.State(now, tasks, leases, ledger, keys, calls, nextTask, nextLease)
    }

    ghost predicate Valid()
      reads this
    {
      I.Inv(config, View())
    }

    constructor (config: Config, now: Time)
      ensures Valid() && View() == L.Init(now) && this.config == config
    {
      this.config := config;
      this.now := now;
      tasks, leases, ledger, keys, calls := map[], map[], [], map[], map[];
      nextTask, nextLease := 0, 0;
      new;
      I.InitInv(config, now);
    }

    // -------------------------------------------------------------------------------------
    // Receipts
    // -------------------------------------------------------------------------------------

    /** Looks for a stored receipt with the same hash. */
    method FindByHash(d: Statement) returns (found: bool)
      ensures found <==> Stored(ledger, d)
    {
      found := false;
      for i := 0 to |ledger|
        invariant !found
        invariant forall j :: 0 <= j < i ==> !(ledger[j].hashed && Hash(ledger[j].says) == Hash(d))
      {
        if ledger[i].hashed && Hash(ledger[i].says) == Hash(d) {
          return true;
        }
      }
    }

    /** Every parent must be a stored receipt. */
    method ParentsExist(d: Statement) returns (ok: bool)
      ensures ok <==> forall p :: p in d.parents ==> p < |ledger|
    {
      for i := 0 to |d.parents|
        invariant forall j :: 0 <= j < i ==> d.parents[j] < |ledger|
      {
        if d.parents[i] >= |ledger| {
          assert d.parents[i] in d.parents;
          return false;
        }
      }
      return true;
    }

    /** Stores one receipt and offers it to the external ledger. When it answers false an
        exception is under way: rows may have been added, and the caller must roll back. */
    method EmitReceipt(d: Statement, v: Verdict) returns (ok: bool)
      modifies this`ledger
      ensures ok <==> Emit(old(ledger), d, now, v).Some?
      ensures ok ==> ledger == Emit(old(ledger), d, now, v).value
    {
      if v.TooLarge? {
        return false;
      }
      if IsTerminalType(d.rtype) {
        if d.parents == [] {
          return false;
        }
        var linked := ParentsExist(d);
        if !linked {
          return false;
        }
      }
      var unlocatable := d.rtype.TaskCompleted? &&
                         !(d.body.CompletedBody? && (d.body.artifacts.Some? || d.body.deliveryProof.Some?));
      var stored := if unlocatable then d.(parents := []) else d;
      var duplicate := FindByHash(stored);
      if !duplicate {
        var id := |ledger|;
        ledger := ledger + [Receipt(id, now, stored, true)];
        if unlocatable {
          ledger := ledger + [Receipt(id + 1, now, Anomaly(id, d), false)];
        }
      }
      if d.rtype in FORWARDED && (v.Buffered? || v.Unbufferable?) {
        return false;
      }
      return true;
    }

    /** The receipt of a transition and the one that may follow it. */
    method EmitTwo(d: Statement, v: Verdict, extra: Option<Statement>, w: Verdict) returns (ok: bool)
      modifies this`ledger
      ensures ok <==> L.EmitTwo(old(ledger), now, d, v, extra, w).Some?
      ensures ok ==> ledger == L.EmitTwo(old(ledger), now, d, v, extra, w).value
    {
      hide Emit;
      ok := EmitReceipt(d, v);
      if ok && extra.Some? {
        ok := EmitReceipt(extra.value, w);
      }
    }

    // -------------------------------------------------------------------------------------
    // Leases
    // -------------------------------------------------------------------------------------

    /** Deletes the leases of `t`, or only the one with the given id. */
    method Release(t: TaskId, id: Option<LeaseId>)
      modifies this`leases
      ensures id.None? ==> leases == old(leases) - L.LeasesOn(old(leases), t)
      ensures id.Some? ==> leases == old(leases) - (L.LeasesOn(old(leases), t) * {id.value})
    {
      leases := map l | l in leases && !(leases[l].task == t && (id.Some? ==> l == id.value)) :: leases[l];
    }

    /** One savepoint: a row rewritten, leases released, receipts emitted; an emission that raises
        restores the tables. */
    method Settle(t: TaskId, row: Task, id: Option<LeaseId>, d: Statement, v: Verdict,
                  extra: Option<Statement>, w: Verdict) returns (ok: bool)
      modifies this
      ensures var on := L.LeasesOn(old(leases), t);
              var s := L.Settle(old(View()), t, row, if id.None? then on else on * {id.value}, d, v, extra, w);
              ok == s.Some? && View() == if ok then s.value else old(View())
    {
      hide L.EmitTwo, L.LeasesOn;
      var savedTasks, savedLeases, savedLedger := tasks, leases, ledger;
      Release(t, id);
      tasks := tasks[t := row];
      ok := EmitTwo(d, v, extra, w);
      if !ok {
        tasks, leases, ledger := savedTasks, savedLeases, savedLedger;
      }
    }

    // -------------------------------------------------------------------------------------
    // Creating and canceling
    // -------------------------------------------------------------------------------------

    method CreateTask(r: L.NewTask, v: Verdict) returns (reply: L.Reply)
      requires Valid()
      modifies this
      ensures Valid()
      ensures L.CreateTask(config, old(View()), r, v) == L.Outcome(View(), reply)
    {
      hide I.Inv, I.Tracks, Emit, L.NewRow, L.AssignedReceipt;
      I.CreateKeepsAlways(config, View(), r, v);
      var savedTasks, savedLedger, savedKeys, savedNext := tasks, ledger, keys, nextTask;
      var t := nextTask;
      if r.key.Some? && r.key.value in keys && keys[r.key.value] in tasks {
        if r.key.value == "" {
          return L.DuplicateKey;
        }
        t := keys[r.key.value];
      } else {
        tasks := tasks[t := L.NewRow(config, now, r)];
        nextTask := t + 1;
        if r.key.Some? {
          keys := keys[r.key.value := t];
        }
      }
      var ok := EmitReceipt(L.AssignedReceipt(r, t, tasks[t]), v);
      if !ok {
        tasks, ledger, keys, nextTask := savedTasks, savedLedger, savedKeys, savedNext;
        return L.Aborted;
      }
      return L.Ok;
    }

    method CancelTask(t: TaskId, actor: Principal, reason: string, authorized: bool, trace: string,
                      v: Verdict, w: Verdict) returns (reply: L.Reply)
      requires Valid()
      modifies this
      ensures Valid()
      ensures L.CancelTask(old(View()), t, actor, reason, authorized, trace, v, w) == L.Outcome(View(), reply)
    {
      hide I.Inv, I.Tracks;
      I.CancelKeeps(config, View(), t, actor, reason, authorized, trace, v, w);
      hide L.Settle, Obligation, L.ResultReady, L.LeasesOn, L.Finished;
      if t !in tasks {
        return L.TaskNotFound;
      }
      var o := Obligation(ledger, t, tasks[t].owner);
      if o.None? {
        return L.MissingObligation;
      }
      if !authorized {
        return L.Unauthorized;
      }
      if IsTerminal(tasks[t].status) {
        return L.NotCanceled;
      }
      var owner := ledger[o.value].says.to;
      var row := L.Finished(tasks[t], Canceled, None, reason, now);
      var d := Statement(TaskCanceled, actor, owner, Some(t), None, [o.value], CanceledBody(actor, reason, now), trace);
      var ok := Settle(t, row, None, d, v, Some(L.ResultReady(t, row, owner, o.value, trace)), w);
      return if ok then L.Ok else L.Aborted;
    }

    // -------------------------------------------------------------------------------------
    // Claiming
    // -------------------------------------------------------------------------------------

    /** One task that no other in `ts` precedes. */
    method Foremost(ts: set<TaskId>) returns (best: TaskId)
      requires ts != {} && ts <= tasks.Keys
      ensures best in ts && forall t :: t in ts ==> !L.Precedes(tasks[t], tasks[best])
    {
      best :| best in ts;
      var rest := ts - {best};
      while rest != {}
        invariant rest <= ts && best in ts
        invariant forall t :: t in ts - rest ==> !L.Precedes(tasks[t], tasks[best])
        decreases rest
      {
        var t :| t in rest;
        if L.Precedes(tasks[t], tasks[best]) {
          best := t;
        }
        rest := rest - {t};
      }
    }

    /** The ordered, limited query over eligible tasks. */
    method SelectEligible(types: set<string>, limit: nat) returns (sel: seq<TaskId>)
      ensures L.IsSelection(View(), types, limit, sel)
    {
      var rest := set t | t in tasks && L.EligibleRow(tasks[t], now, types);
      sel := [];
      while |sel| < limit && rest != {}
        invariant |sel| <= limit && rest <= tasks.Keys
        invariant forall t :: t in rest <==> L.Eligible(View(), t, types) && t !in sel
        invariant forall i :: 0 <= i < |sel| ==> L.Eligible(View(), sel[i], types)
        invariant forall i, j :: 0 <= i < j < |sel| ==> sel[i] != sel[j] && !L.Precedes(tasks[sel[j]], tasks[sel[i]])
        invariant forall t, i :: t in rest && 0 <= i < |sel| ==> !L.Precedes(tasks[t], tasks[sel[i]])
        decreases rest
      {
        var best := Foremost(rest);
        sel := sel + [best];
        rest := rest - {best};
      }
    }

    /** A task's capability requirement, judged the way the claim loop does. */
    predicate Suits(required: set<string>, offered: set<string>) {
      if required != {} && offered != {} then required <= offered
      else required == {}
    }

    /** Inserts one lease row and marks its task. */
    method ClaimRow(t: TaskId, worker: WorkerId, ttl: Option<int>)
      requires t in tasks
      modifies this`tasks, this`leases, this`nextLease
      ensures tasks == old(tasks)[t := old(tasks)[t].(status := Leased)]
      ensures leases == old(leases)[old(nextLease) := L.NewLease(config, now, t, worker, ttl)]
      ensures nextLease == old(nextLease) + 1
    {
      var length := Min(OrDefault(ttl, config.defaultLeaseTtl), config.maxLeaseTtl);
      leases := leases[nextLease := Lease(t, worker, now + length * SECOND, now, 0)];
      tasks := tasks[t := tasks[t].(status := Leased)];
      nextLease := nextLease + 1;
    }

    /** Inserts lease rows and marks tasks for those selected tasks the worker is capable of. */
    method ClaimRows(sel: seq<TaskId>, worker: WorkerId, capabilities: set<string>, ttl: Option<int>)
      returns (claimed: seq<TaskId>)
      requires forall t :: t in sel ==> t in tasks
      modifies this`tasks, this`leases, this`nextLease
      ensures claimed == L.Matching(old(tasks), sel, capabilities)
      ensures tasks == L.ClaimedTasks(old(tasks), claimed)
      ensures leases == L.ClaimedLeases(config, now, old(leases), old(nextLease), claimed, worker, ttl)
      ensures nextLease == old(nextLease) + |claimed|
    {
      hide L.NewLease, L.ClaimedTasks, L.ClaimedLeases, L.Matching, L.Capable, Suits;
      ghost var before, leasesBefore := tasks, leases;
      claimed := [];
      ClaimNothing(before, leasesBefore, nextLease, worker, capabilities, ttl);
      for i := 0 to |sel|
        invariant claimed == L.Matching(before, sel[..i], capabilities)
        invariant tasks == L.ClaimedTasks(before, claimed)
        invariant leases == L.ClaimedLeases(config, now, leasesBefore, old(nextLease), claimed, worker, ttl)
        invariant nextLease == old(nextLease) + |claimed|
      {
        var t := sel[i];
        ConsiderOneMore(before, claimed, sel[..i + 1], capabilities);
        assert sel[..i + 1][..i] == sel[..i];
        if Suits(tasks[t].capabilities, capabilities) {
          ClaimOneMoreRow(before, leasesBefore, old(nextLease), claimed, t, worker, ttl);
          ClaimRow(t, worker, ttl);
          claimed := claimed + [t];
        }
      }
      assert sel[..|sel|] == sel;
    }

    lemma ClaimOneMoreRow(tasks: map<TaskId, Task>, leases: map<LeaseId, Lease>, first: LeaseId, claimed: seq<TaskId>,
                          t: TaskId, worker: WorkerId, ttl: Option<int>)
      requires t in tasks && forall u :: u in claimed ==> u in tasks
      ensures var before := L.ClaimedTasks(tasks, claimed);
              t in before && L.ClaimedTasks(tasks, claimed + [t]) == before[t := before[t].(status := Leased)]
      ensures L.ClaimedLeases(config, now, leases, first, claimed + [t], worker, ttl) ==
                L.ClaimedLeases(config, now, leases, first, claimed, worker, ttl)
                [first + |claimed| := L.NewLease(config, now, t, worker, ttl)]
    {
      hide L.NewLease, L.ClaimedTasks;
      assert (claimed + [t])[..|claimed|] == claimed;
      L.ClaimOneMore(tasks, claimed + [t]);
    }

    lemma ClaimNothing(tasks: map<TaskId, Task>, leases: map<LeaseId, Lease>, first: LeaseId, worker: WorkerId,
                       capabilities: set<string>, ttl: Option<int>)
      ensures L.Matching(tasks, [], capabilities) == [] && L.ClaimedTasks(tasks, []) == tasks
      ensures L.ClaimedLeases(config, now, leases, first, [], worker, ttl) == leases
    {
      assert L.ClaimedTasks(tasks, []) == tasks;
    }

    lemma ConsiderOneMore(tasks: map<TaskId, Task>, claimed: seq<TaskId>, sel: seq<TaskId>, capabilities: set<string>)
      requires sel != [] && sel[|sel| - 1] in tasks
      ensures var n := |sel| - 1;
              && sel[n] in L.ClaimedTasks(tasks, claimed)
              && L.Matching(tasks, sel, capabilities) ==
                   L.Matching(tasks, sel[..n], capabilities) +
                   (if Suits(L.ClaimedTasks(tasks, claimed)[sel[n]].capabilities, capabilities) then [sel[n]] else [])
    {
    }

    /** Accepts the claimed tasks one by one; false when an emission raises. */
    method AcceptClaims(claimed: seq<TaskId>, first: LeaseId, worker: WorkerId, capabilities: set<string>,
                        trace: string, vs: seq<Verdict>) returns (ok: bool)
      requires forall t :: t in claimed ==> t in tasks
      modifies this`ledger
      ensures var l := L.Accepted(old(ledger), now, tasks, first, claimed, worker, capabilities, trace, vs);
              ok == l.Some? && (ok ==> ledger == l.value)
    {
      hide Emit, L.AcceptedReceipt;
      ghost var before := ledger;
      for i := 0 to |claimed|
        invariant L.Accepted(before, now, tasks, first, claimed[..i], worker, capabilities, trace, vs) == Some(ledger)
      {
        assert claimed[..i + 1][..i] == claimed[..i];
        var d := L.AcceptedReceipt(ledger, claimed[i], tasks[claimed[i]], first + i, worker, capabilities, trace);
        var emitted := EmitReceipt(d, VerdictAt(vs, i));
        if !emitted {
          NoneStaysNone(before, first, claimed, i + 1, worker, capabilities, trace, vs);
          return false;
        }
      }
      assert claimed[..|claimed|] == claimed;
      return true;
    }

    lemma {:induction false} NoneStaysNone(l: Rows, first: LeaseId, ts: seq<TaskId>, i: nat, worker: WorkerId,
                                           capabilities: set<string>, trace: string, vs: seq<Verdict>)
      requires i <= |ts| && forall t :: t in ts ==> t in tasks
      requires L.Accepted(l, now, tasks, first, ts[..i], worker, capabilities, trace, vs).None?
      ensures L.Accepted(l, now, tasks, first, ts, worker, capabilities, trace, vs).None?
    {
      hide Emit, L.AcceptedReceipt;
      if i == |ts| {
        assert ts[..i] == ts;
      } else {
        var n := |ts| - 1;
        assert ts[..n][..i] == ts[..i];
        NoneStaysNone(l, first, ts[..n], i, worker, capabilities, trace, vs);
      }
    }

    /** Claims and accepts in one savepoint. */
    method ClaimAndAccept(sel: seq<TaskId>, worker: WorkerId, capabilities: set<string>, ttl: Option<int>,
                          trace: string, vs: seq<Verdict>) returns (ok: bool)
      requires forall t :: t in sel ==> t in tasks
      modifies this
      ensures var ts := L.Matching(old(tasks), sel, capabilities);
              var l := L.Accepted(old(ledger), now, old(tasks), old(nextLease), ts, worker, capabilities, trace, vs);
              if l.None? then !ok && View() == old(View())
              else
                && ok
                && View() == old(View()).(
                     tasks := L.ClaimedTasks(old(tasks), ts), nextLease := old(nextLease) + |ts|, ledger := l.value,
                     leases := L.ClaimedLeases(config, now, old(leases), old(nextLease), ts, worker, ttl))
    {
      hide L.Accepted, L.ClaimedLeases, L.ClaimedTasks;
      var savedTasks, savedLeases, savedLedger, savedNext := tasks, leases, ledger, nextLease;
      var claimed := ClaimRows(sel, worker, capabilities, ttl);
      AcceptanceNeedsOnlyOwners(ledger, now, savedTasks, savedNext, claimed, claimed, worker, capabilities, trace, vs);
      ok := AcceptClaims(claimed, savedNext, worker, capabilities, trace, vs);
      if !ok {
        tasks, leases, ledger, nextLease := savedTasks, savedLeases, savedLedger, savedNext;
      }
    }

    method LeaseNext(worker: WorkerId, capabilities: set<string>, types: set<string>, maxTasks: int, ttl: Option<int>,
                     trace: string, vs: seq<Verdict>) returns (reply: L.Reply, sel: seq<TaskId>)
      requires Valid()
      modifies this
      ensures Valid()
      ensures L.LeaseNext(config, old(View()), worker, capabilities, types, maxTasks, ttl, sel, trace, vs)
              == L.Outcome(View(), reply)
      ensures Min(maxTasks, L.MAX_CLAIM) >= 0 ==> L.IsSelection(old(View()), types, Min(maxTasks, L.MAX_CLAIM), sel)
    {
      hide I.Inv, I.Tracks, L.GrantAll, L.Accepted, L.Matching, L.ClaimedLeases, L.ClaimedTasks;
      sel := [];
      var limit := Min(maxTasks, L.MAX_CLAIM);
      if limit < 0 {
        return L.BadRequest, sel;
      }
      sel := SelectEligible(types, limit);
      assert forall t :: t in sel ==> t in tasks;
      hide L.IsSelection;
      I.LeaseNextKeeps(config, View(), worker, capabilities, types, maxTasks, ttl, sel, trace, vs);
      L.ClaimThenAccept(config, View(), L.Matching(tasks, sel, capabilities), worker, capabilities, ttl, trace, vs);
      var ok := ClaimAndAccept(sel, worker, capabilities, ttl, trace, vs);
      return if ok then L.Ok else L.Aborted, sel;
    }

    // -------------------------------------------------------------------------------------
    // Holding a lease
    // -------------------------------------------------------------------------------------

    method AdvanceClock(at: Time)
      requires Valid()
      modifies this`now
      ensures Valid()
      ensures View() == L.Apply(config, old(View()), L.Tick(at)).state
    {
      hide I.Inv, I.Tracks;
      I.TickKeeps(config, View(), at);
      if at > now {
        now := at;
      }
    }

    method RenewLease(t: TaskId, l: LeaseId, w: WorkerId, extend: Option<int>) returns (reply: L.Reply)
      requires Valid()
      modifies this`leases
      ensures Valid()
      ensures L.RenewLease(config, old(View()), t, l, w, extend) == L.Outcome(View(), reply)
    {
      hide I.Inv, I.Tracks;
      I.RenewKeepsAlways(config, View(), t, l, w, extend);
      if t !in tasks {
        return L.TaskNotFound;
      }
      if tasks[t].status !in {Leased, Running} {
        return L.LeaseInvalid;
      }
      if l !in leases || leases[l].task != t || leases[l].worker != w {
        return L.LeaseInvalid;
      }
      var lease := leases[l];
      if lease.renewals >= config.maxLeaseRenewals {
        return L.RenewalLimit;
      }
      if L.LifetimeSeconds(now, lease) >= config.maxLeaseLifetime {
        return L.LifetimeExceeded;
      }
      var length := Min(OrDefault(extend, config.defaultLeaseTtl), config.maxLeaseTtl);
      leases := leases[l := lease.(expiresAt := now + length * SECOND, renewals := lease.renewals + 1)];
      return L.Ok;
    }

    /** Whether the lease exists, is this worker's on this task, and has not expired. */
    method Validate(t: TaskId, l: LeaseId, w: WorkerId) returns (ok: bool)
      ensures ok <==> L.Validates(View(), t, l, w)
    {
      if l !in leases {
        return false;
      }
      var lease := leases[l];
      return lease.task == t && lease.worker == w && lease.expiresAt > now;
    }

    /** One savepoint: the task row and its task.started receipt. */
    method MarkRunning(t: TaskId, l: LeaseId, w: WorkerId, trace: string, v: Verdict) returns (ok: bool)
      requires t in tasks
      modifies this`tasks, this`ledger
      ensures var s := L.MarkRunning(old(View()), t, l, w, trace, v);
              ok == s.Some? && View() == if ok then s.value else old(View())
    {
      hide Emit, L.FromHolder;
      var savedTasks, savedLedger := tasks, ledger;
      var row := tasks[t];
      var started := if row.startedAt.Some? then row.startedAt.value else now;
      tasks := tasks[t := row.(status := Running, startedAt := Some(started))];
      ok := EmitReceipt(L.FromHolder(ledger, TaskStarted, t, row, l, w, StartedBody(started), trace), v);
      if !ok {
        tasks, ledger := savedTasks, savedLedger;
      }
    }

    method StartTask(t: TaskId, l: LeaseId, w: WorkerId, trace: string, v: Verdict) returns (reply: L.Reply)
      requires Valid()
      modifies this`tasks, this`ledger
      ensures Valid()
      ensures L.StartTask(old(View()), t, l, w, trace, v) == L.Outcome(View(), reply)
    {
      hide I.Inv, I.Tracks;
      I.StartTaskKeeps(config, View(), t, l, w, trace, v);
      hide L.MarkRunning, L.Validates;
      var valid := Validate(t, l, w);
      if !valid {
        return L.LeaseInvalid;
      }
      if t !in tasks {
        return L.TaskNotFound;
      }
      if tasks[t].status.Running? {
        return L.Ok;
      }
      if !tasks[t].status.Leased? {
        return L.InvalidTransition;
      }
      var ok := MarkRunning(t, l, w, trace, v);
      return if ok then L.Ok else L.Aborted;
    }

    /** A leased task is started; any other is left as it is. */
    method StartIfLeased(t: TaskId, l: LeaseId, w: WorkerId, trace: string, v: Verdict) returns (ok: bool)
      requires t in tasks
      modifies this`tasks, this`ledger
      ensures var s := if old(tasks)[t].status.Leased? then L.MarkRunning(old(View()), t, l, w, trace, v)
                       else Some(old(View()));
              ok == s.Some? && View() == if ok then s.value else old(View())
    {
      hide L.MarkRunning;
      ok := true;
      if tasks[t].status.Leased? {
        ok := MarkRunning(t, l, w, trace, v);
      }
    }

    method ReportProgress(t: TaskId, l: LeaseId, w: WorkerId, data: string, trace: string, v: Verdict, v': Verdict)
      returns (reply: L.Reply)
      requires Valid()
      modifies this`tasks, this`ledger
      ensures Valid()
      ensures L.ReportProgress(old(View()), t, l, w, data, trace, v, v') == L.Outcome(View(), reply)
    {
      hide I.Inv, I.Tracks;
      I.ProgressKeeps(config, View(), t, l, w, data, trace, v, v');
      hide L.MarkRunning, L.Validates, Emit, L.FromHolder;
      var valid := Validate(t, l, w);
      if !valid {
        return L.LeaseInvalid;
      }
      if t !in tasks {
        return L.TaskNotFound;
      }
      var savedTasks, savedLedger := tasks, ledger;
      var d := L.FromHolder(ledger, TaskProgress, t, tasks[t], l, w, ProgressBody(data), trace);
      var started := StartIfLeased(t, l, w, trace, v);
      if !started {
        return L.Aborted;
      }
      var ok := EmitReceipt(d, v');
      if !ok {
        tasks, ledger := savedTasks, savedLedger;
        return L.Aborted;
      }
      return L.Ok;
    }

    // -------------------------------------------------------------------------------------
    // Completing and failing
    // -------------------------------------------------------------------------------------

    method BeginComplete(k: CallId, t: TaskId, l: LeaseId, w: WorkerId, payload: string, artifacts: Option<Artifacts>)
      returns (reply: L.Reply)
      requires Valid()
      modifies this`calls
      ensures Valid()
      ensures L.BeginComplete(old(View()), k, t, l, w, payload, artifacts) == L.Outcome(View(), reply)
    {
      hide I.Inv, I.Tracks;
      I.BeginCompleteKeeps(config, View(), k, t, l, w, payload, artifacts);
      hide L.Validates, Obligation;
      if k in calls {
        return L.BadRequest;
      }
      var valid := Validate(t, l, w);
      if !valid {
        return L.LeaseInvalid;
      }
      if t !in tasks {
        return L.TaskNotFound;
      }
      if !CanTransition(tasks[t].status, Succeeded) {
        return L.InvalidTransition;
      }
      var o := Obligation(ledger, t, tasks[t].owner);
      if o.None? {
        return L.MissingObligation;
      }
      calls := calls[k := L.CompleteCall(w, t, l, payload, artifacts, o.value, ledger[o.value].says.to)];
      return L.Ok;
    }

    method BeginFail(k: CallId, t: TaskId, l: LeaseId, w: WorkerId, error: string, retryable: bool)
      returns (reply: L.Reply)
      requires Valid()
      modifies this`calls
      ensures Valid()
      ensures L.BeginFail(old(View()), k, t, l, w, error, retryable) == L.Outcome(View(), reply)
    {
      hide I.Inv, I.Tracks;
      I.BeginFailKeeps(config, View(), k, t, l, w, error, retryable);
      hide L.Validates, Obligation;
      if k in calls {
        return L.BadRequest;
      }
      var valid := Validate(t, l, w);
      if !valid {
        return L.LeaseInvalid;
      }
      if t !in tasks {
        return L.TaskNotFound;
      }
      var requeue := retryable && tasks[t].attempt + 1 < tasks[t].maxAttempts;
      var o := Obligation(ledger, t, tasks[t].owner);
      if o.None? {
        return L.MissingObligation;
      }
      calls := calls[k := L.FailCall(w, t, l, error, retryable, requeue, o.value, ledger[o.value].says.to)];
      return L.Ok;
    }

    method CompleteLocked(k: L.Call, trace: string, v: Verdict, w: Verdict) returns (reply: L.Reply)
      requires k.CompleteCall?
      modifies this
      ensures L.Complete(old(View()), k, trace, v, w) == L.Outcome(View(), reply)
    {
      hide L.Settle, L.ResultReady, L.Finished, L.CompletedReceipt, L.LeasesOn;
      var valid := Validate(k.task, k.lease, k.worker);
      if !valid {
        return L.LeaseInvalid;
      }
      if k.task !in tasks {
        return L.TaskNotFound;
      }
      if !CanTransition(tasks[k.task].status, Succeeded) {
        return L.InvalidTransition;
      }
      var row := L.Finished(tasks[k.task], Succeeded, k.artifacts, k.payload, now);
      OwnLease(leases, k.task, k.lease);
      var ok := Settle(k.task, row, Some(k.lease), L.CompletedReceipt(k, trace), v,
                       Some(L.ResultReady(k.task, row, k.owner, k.obligation, trace)), w);
      return if ok then L.Ok else L.Aborted;
    }

    method FailLocked(k: L.Call, trace: string, v: Verdict, w: Verdict) returns (reply: L.Reply)
      requires k.FailCall?
      modifies this
      ensures L.Fail(config, old(View()), k, trace, v, w) == L.Outcome(View(), reply)
    {
      hide L.Settle, L.ResultReady, L.Finished, L.FailedReceipt, L.RetryReceipt, L.RequeuedWithBackoff, L.LeasesOn;
      var valid := Validate(k.task, k.lease, k.worker);
      if !valid {
        return L.LeaseInvalid;
      }
      if k.task !in tasks {
        return L.TaskNotFound;
      }
      OwnLease(leases, k.task, k.lease);
      var ok;
      if k.requeue {
        var row := L.RequeuedWithBackoff(config, tasks[k.task], now);
        ok := Settle(k.task, row, Some(k.lease), L.RetryReceipt(k, row, trace), v, None, w);
      } else {
        var row := L.Finished(tasks[k.task], Failed, None, k.error, now);
        ok := Settle(k.task, row, Some(k.lease), L.FailedReceipt(k, trace), v,
                     Some(L.ResultReady(k.task, row, k.owner, k.obligation, trace)), w);
      }
      return if ok then L.Ok else L.Aborted;
    }

    /** The locked phase of a pending call. */
    method Finish(k: CallId, trace: string, v: Verdict, w: Verdict) returns (reply: L.Reply)
      requires Valid()
      modifies this
      ensures Valid()
      ensures L.Finish(config, old(View()), k, trace, v, w) == L.Outcome(View(), reply)
    {
      hide I.Inv, I.Tracks;
      I.FinishKeeps(config, View(), k, trace, v, w);
      hide L.Complete, L.Fail;
      if k !in calls {
        return L.NoSuchCall;
      }
      var remaining := calls - {k};
      if calls[k].CompleteCall? {
        reply := CompleteLocked(calls[k], trace, v, w);
      } else {
        reply := FailLocked(calls[k], trace, v, w);
      }
      calls := remaining;
    }

    // -------------------------------------------------------------------------------------
    // Expiry
    // -------------------------------------------------------------------------------------

    /** One iteration of the sweep on a lease row read earlier. */
    method ExpireOne(id: LeaseId, lease: Lease, jitter: nat, trace: string, v: Verdict, w: Verdict)
      returns (reply: L.Reply)
      modifies this
      ensures L.ExpireBody(config, old(View()), id, lease, jitter, trace, v, w) == L.Outcome(View(), reply)
    {
      hide L.Settle, L.RequeuedOnExpiry, L.ExpiredReceipt, L.Escalation, L.LeasesOn;
      var t := lease.task;
      if t !in tasks || IsTerminal(tasks[t].status) {
        return L.TaskNotFound;
      }
      var row := tasks[t];
      OwnLease(leases, t, id);
      var ok := Settle(t, L.RequeuedOnExpiry(row, now, jitter), Some(id),
                       L.ExpiredReceipt(ledger, t, row, id, lease, trace), v,
                       L.Escalation(config, ledger, t, row, id, lease, trace), w);
      return if ok then L.Ok else L.Aborted;
    }

    /** At most `limit` of the leases the sweep query matches. */
    method GetExpired(limit: nat) returns (found: seq<LeaseId>)
      ensures forall i :: 0 <= i < |found| ==> L.Expired(config, View(), found[i])
      ensures forall i, j :: 0 <= i < j < |found| ==> found[i] != found[j]
      ensures |found| <= limit
      ensures |found| < limit ==> forall l :: L.Expired(config, View(), l) ==> l in found
    {
      var rest := set l | l in leases && leases[l].expiresAt < now && leases[l].task in tasks
                          && tasks[leases[l].task].status in {Leased, Running}
                          && (config.instance != "" ==> tasks[leases[l].task].instance == config.instance);
      found := [];
      while |found| < limit && rest != {}
        invariant forall l :: l in rest <==> L.Expired(config, View(), l) && l !in found
        invariant forall i :: 0 <= i < |found| ==> L.Expired(config, View(), found[i])
        invariant forall i, j :: 0 <= i < j < |found| ==> found[i] != found[j]
        invariant |found| <= limit
        decreases rest
      {
        var l :| l in rest;
        found := found + [l];
        rest := rest - {l};
      }
    }

    /** Expires one lease that the sweep query has just returned; the lease goes, or nothing does. */
    method ExpireFound(l: LeaseId, jitter: nat, trace: string, v: Verdict, w: Verdict) returns (gone: bool)
      requires Valid() && L.Expired(config, View(), l)
      modifies this
      ensures Valid() && View() == L.Next(config, old(View()), L.DoExpire(l, jitter, trace, v, w))
      ensures leases == if gone then old(leases) - {l} else old(leases)
      ensures |leases.Keys| == |old(leases).Keys| - if gone then 1 else 0
      ensures forall m :: m != l && L.Expired(config, old(View()), m) ==> L.Expired(config, View(), m)
    {
      hide L.Settle, L.ExpiredReceipt, L.Escalation, L.RequeuedOnExpiry,
           I.LeaseMatchesStatus, I.IdsIssued, I.Records, I.Accounts, I.Pending, I.Lifetimes;
      I.NextKeeps(config, View(), L.DoExpire(l, jitter, trace, v, w));
      forall m | m != l && L.Expired(config, View(), m)
        ensures L.Expired(config, L.ExpireLease(config, View(), l, jitter, trace, v, w).state, m)
      {
        ExpireOthers(config, View(), l, m, jitter, trace, v, w);
      }
      hide L.Expired;
      ghost var held := leases;
      var reply := ExpireOne(l, leases[l], jitter, trace, v, w);
      gone := reply.Ok?;
      assert (held - {l}).Keys == held.Keys - {l};
    }

    /** Expires the leases found, one after the other, each in its own savepoint. */
    method ExpireAll(found: seq<LeaseId>, jitter: seq<nat>, trace: string, vs: seq<Verdict>, ws: seq<Verdict>)
      returns (count: nat, ghost steps: seq<L.Step>)
      requires Valid()
      requires forall j :: 0 <= j < |found| ==> L.Expired(config, View(), found[j])
      requires forall i, j :: 0 <= i < j < |found| ==> found[i] != found[j]
      modifies this
      ensures Valid() && View() == L.Run(config, old(View()), steps)
      ensures Swept(found, steps, old(leases), leases) && count == |old(leases).Keys| - |leases.Keys|
    {
      hide I.Inv, L.Next, L.Expired;
      count, steps := 0, [];
      ghost var before := View();
      for i := 0 to |found|
        invariant Valid() && View() == L.Run(config, before, steps)
        invariant Swept(found[..i], steps, before.leases, leases)
        invariant forall j :: i <= j < |found| ==> L.Expired(config, View(), found[j])
        invariant count == |before.leases.Keys| - |leases.Keys|
      {
        var v, w := VerdictAt(vs, i), VerdictAt(ws, i);
        var delay := if i < |jitter| then jitter[i] else 0;
        ghost var step := L.DoExpire(found[i], delay, trace, v, w);
        var gone := ExpireFound(found[i], delay, trace, v, w);
        if gone {
          count := count + 1;
        }
        assert (steps + [step])[..|steps|] == steps;
        assert found[..i + 1] == found[..i] + [found[i]];
        steps := steps + [step];
      }
      assert found[..|found|] == found;
    }

    /** The sweep: every lease found is expired in its own savepoint, and one that fails does not stop
        the others. `steps` is the run of the lifecycle the sweep amounts to: it tries only leases that
        are past their end on tasks of this instance, all of them if there are fewer than a hundred. */
    method ExpireLeases(jitter: seq<nat>, trace: string, vs: seq<Verdict>, ws: seq<Verdict>)
      returns (count: nat, ghost steps: seq<L.Step>)
      requires Valid()
      modifies this
      ensures Valid() && View() == L.Run(config, old(View()), steps)
      ensures forall l :: l in old(leases) ==> old(leases)[l].task in old(tasks)
      ensures forall st :: st in steps ==>
                && st.DoExpire? && st.lease in old(leases) && old(leases)[st.lease].expiresAt < old(now)
                && (config.instance == "" || old(tasks)[old(leases)[st.lease].task].instance == config.instance)
      ensures forall l :: l in old(leases) && l !in leases ==> exists st :: st in steps && st.lease == l
      ensures leases.Keys <= old(leases).Keys && count == |old(leases).Keys| - |leases.Keys|
      ensures |steps| <= 100
      ensures |steps| < 100 ==>
                forall l :: l in old(leases) && old(leases)[l].expiresAt < old(now)
                            && (config.instance == "" || old(tasks)[old(leases)[l].task].instance == config.instance) ==>
                  exists st :: st in steps && st.lease == l
    {
      hide I.Inv, L.Run, L.Expired, Swept;
      ExpiredMeans(config, View());
      var found := GetExpired(SWEEP_LIMIT);
      ghost var before := leases;
      count, steps := ExpireAll(found, jitter, trace, vs, ws);
      SweptMeans(found, steps, before, leases);
    }

    // -------------------------------------------------------------------------------------
    // Reconciliation and acknowledgement
    // -------------------------------------------------------------------------------------

    /** Every lease of `worker`, expired or not. */
    static function LeasesOf(leases: map<LeaseId, Lease>, worker: WorkerId): (ls: set<LeaseId>)
      ensures ls <= leases.Keys
    {
      set l | l in leases && leases[l].worker == worker
    }

    /** The task ids among the custody rows; a row may have none. */
    static function Owed(custody: seq<Option<TaskId>>): set<TaskId> {
      set row | row in custody && row.Some? :: row.value
    }

    /** Releases a lease nothing backs and, if its task is unfinished, sends that back to the queue. */
    method ReleaseUnbacked(l: LeaseId) returns (requeued: bool)
      requires l in leases
      modifies this`leases, this`tasks
      ensures leases == old(leases) - {l}
      ensures var t := old(leases)[l].task;
              && requeued == (t in old(tasks) && !IsTerminal(old(tasks)[t].status))
              && tasks == if requeued then old(tasks)[t := old(tasks)[t].(status := Queued)] else old(tasks)
    {
      var t := leases[l].task;
      OwnLease(leases, t, l);
      hide L.LeasesOn;
      Release(t, Some(l));
      requeued := t in tasks && !IsTerminal(tasks[t].status);
      if requeued {
        tasks := tasks[t := tasks[t].(status := Queued)];
      }
    }

    /** Goes through the worker's leases, in any order. */
    method ReleaseStale(worker: WorkerId, owed: set<TaskId>, local: set<LeaseId>)
      returns (released: seq<LeaseId>, settled: seq<TaskId>)
      requires I.LeaseMatchesStatus(tasks, leases) && local == LeasesOf(leases, worker)
      modifies this`leases, this`tasks
      ensures Repairing(old(View()), worker, owed, {}, released, settled, leases, tasks)
    {
      ghost var before := View();
      var rest := local;
      released, settled := [], [];
      RepairStarts(before, worker, owed, local);
      hide I.LeaseMatchesStatus, Repairing, LeasesOf;
      while rest != {}
        invariant rest <= local && Repairing(before, worker, owed, rest, released, settled, leases, tasks)
        decreases rest
      {
        var l :| l in rest;
        RepairStep(before, worker, owed, rest, l, released, settled, leases, tasks);
        rest := rest - {l};
        var t := leases[l].task;
        if t !in owed {
          var requeued := ReleaseUnbacked(l);
          released := released + [l];
          if requeued {
            settled := settled + [t];
          }
        }
      }
    }

    /** Repairs one worker's leases and tasks from the custody rows of the external ledger. */
    method Reconcile(worker: WorkerId, custody: seq<Option<TaskId>>) returns (report: Report)
      requires Valid()
      modifies this`leases, this`tasks
      ensures Valid() && View() == L.Reconcile(old(View()), worker, Owed(custody))
      ensures report.heldByLedger == |custody| && report.localLeases == |LeasesOf(old(leases), worker)|
      ensures Repaired(old(View()), report.released, report.settled, leases)
      ensures report.missing == Owed(custody) - L.TasksOf(old(leases), LeasesOf(old(leases), worker))
    {
      hide I.Inv, I.LeaseMatchesStatus, L.Reconcile, Owed, Repairing, Repaired, L.TasksOf, LeasesOf;
      ghost var before := View();
      MatchesWhenValid(config, before);
      I.ReconcileKeeps(config, before, worker, Owed(custody));
      var owed := Owed(custody);
      var local := LeasesOf(leases, worker);
      var localTasks := L.TasksOf(leases, local);
      var released, settled := ReleaseStale(worker, owed, local);
      RepairEnds(before, worker, owed, released, settled, leases, tasks);
      report := Report(|custody|, |local|, released, settled, owed - localTasks);
    }

    method Acknowledge(receipt: ReceiptId, actor: Principal, trace: string, v: Verdict) returns (reply: L.Reply)
      requires Valid()
      modifies this`ledger
      ensures Valid()
      ensures L.Acknowledge(old(View()), receipt, actor, trace, v) == L.Outcome(View(), reply)
    {
      hide I.Inv, I.Tracks;
      I.AcknowledgeKeeps(config, View(), receipt, actor, trace, v);
      hide Emit;
      var saved := ledger;
      var d := Statement(ReceiptAcknowledged, actor, SERVICE_PRINCIPAL, None, None, [receipt],
                         AcknowledgedBody(receipt), trace);
      var ok := EmitReceipt(d, v);
      if !ok {
        ledger := saved;
        return L.Aborted;
      }
      return L.Ok;
    }
  }

  /** What reconciliation has done when only the leases in `rest` are still to be looked at. */
  ghost predicate Repairing(before: L.State, worker: WorkerId, owed: set<TaskId>, rest: set<LeaseId>,
                            released: seq<LeaseId>, settled: seq<TaskId>,
                            leases: map<LeaseId, Lease>, tasks: map<TaskId, Task>) {
    && (forall l :: l in rest ==> l in before.leases && before.leases[l].worker == worker)
    && (forall l :: l in released <==> l in L.Stale(before, worker, owed) && l !in rest)
    && (forall i, j :: 0 <= i < j < |released| ==> released[i] != released[j])
    && leases == before.leases - (set l | l in released)
    && |settled| == |released|
    && (forall i :: 0 <= i < |released| ==> settled[i] == before.leases[released[i]].task)
    && tasks.Keys == before.tasks.Keys
    && (forall t :: t in tasks ==>
          tasks[t] == if t in settled then before.tasks[t].(status := Queued) else before.tasks[t])
  }

  lemma MatchesWhenValid(c: Config, s: L.State)
    requires I.Inv(c, s)
    ensures I.LeaseMatchesStatus(s.tasks, s.leases)
  {
  }

  lemma RepairStarts(s: L.State, worker: WorkerId, owed: set<TaskId>, local: set<LeaseId>)
    requires local == set l | l in s.leases && s.leases[l].worker == worker
    ensures Repairing(s, worker, owed, local, [], [], s.leases, s.tasks)
  {
    var none: seq<LeaseId> := [];
    assert s.leases - (set l | l in none) == s.leases;
  }

  lemma RepairRelease(s: L.State, worker: WorkerId, owed: set<TaskId>, rest: set<LeaseId>, l: LeaseId,
                      released: seq<LeaseId>, settled: seq<TaskId>, leases: map<LeaseId, Lease>,
                      tasks: map<TaskId, Task>, t: TaskId)
    requires l in rest && l in leases && leases[l].task == t && t in tasks && t !in owed
    requires Repairing(s, worker, owed, rest, released, settled, leases, tasks)
    ensures Repairing(s, worker, owed, rest - {l}, released + [l], settled + [t],
                      leases - {l}, tasks[t := tasks[t].(status := Queued)])
  {
    var more := released + [l];
    assert leases - {l} == s.leases - (set m | m in more);
    assert forall u :: u in settled + [t] <==> u in settled || u == t;
  }

  lemma RepairStep(s: L.State, worker: WorkerId, owed: set<TaskId>, rest: set<LeaseId>, l: LeaseId,
                   released: seq<LeaseId>, settled: seq<TaskId>, leases: map<LeaseId, Lease>, tasks: map<TaskId, Task>)
    requires I.LeaseMatchesStatus(s.tasks, s.leases)
    requires l in rest && Repairing(s, worker, owed, rest, released, settled, leases, tasks)
    ensures l in leases
    ensures var t := leases[l].task;
            if t in owed then Repairing(s, worker, owed, rest - {l}, released, settled, leases, tasks)
            else
              && t in tasks && !IsTerminal(tasks[t].status)
              && Repairing(s, worker, owed, rest - {l}, released + [l], settled + [t],
                           leases - {l}, tasks[t := tasks[t].(status := Queued)])
  {
    assert l !in released;
    var t := s.leases[l].task;
    if t !in owed {
      RepairRelease(s, worker, owed, rest, l, released, settled, leases, tasks, t);
    }
  }

  lemma SettledAreFreed(s: L.State, stale: set<LeaseId>, released: seq<LeaseId>, settled: seq<TaskId>, t: TaskId)
    requires stale <= s.leases.Keys && |settled| == |released| && forall l :: l in released <==> l in stale
    requires forall i :: 0 <= i < |released| ==> settled[i] == s.leases[released[i]].task
    ensures t in settled <==> t in L.TasksOf(s.leases, stale)
  {
    if t in L.TasksOf(s.leases, stale) {
      var l :| l in stale && s.leases[l].task == t;
      var i :| 0 <= i < |released| && released[i] == l;
      assert settled[i] == t;
    }
    if i :| 0 <= i < |settled| && settled[i] == t {
      assert released[i] in stale;
    }
  }

  lemma RepairedRow(s: L.State, worker: WorkerId, owed: set<TaskId>, released: seq<LeaseId>,
                    settled: seq<TaskId>, leases: map<LeaseId, Lease>, tasks: map<TaskId, Task>, t: TaskId)
    requires I.LeaseMatchesStatus(s.tasks, s.leases) && t in tasks
    requires Repairing(s, worker, owed, {}, released, settled, leases, tasks)
    ensures t in s.tasks && tasks[t] == L.Reconcile(s, worker, owed).tasks[t]
  {
    hide L.TasksOf, I.LeaseMatchesStatus;
    var stale := L.Stale(s, worker, owed);
    SettledAreFreed(s, stale, released, settled, t);
    if t in settled {
      FreedIsActive(s, stale, t);
    }
  }

  lemma RepairedLeases(s: L.State, worker: WorkerId, owed: set<TaskId>, released: seq<LeaseId>,
                       settled: seq<TaskId>, leases: map<LeaseId, Lease>, tasks: map<TaskId, Task>)
    requires Repairing(s, worker, owed, {}, released, settled, leases, tasks)
    ensures leases == s.leases - L.Stale(s, worker, owed)
    ensures Repaired(s, released, settled, leases)
  {
    assert L.Stale(s, worker, owed) == set l | l in released;
  }

  /** What the report says about the leases that went. */
  ghost predicate Repaired(before: L.State, released: seq<LeaseId>, settled: seq<TaskId>, leases: map<LeaseId, Lease>) {
    && (forall l :: l in released <==> l in before.leases && l !in leases)
    && (forall i, j :: 0 <= i < j < |released| ==> released[i] != released[j])
    && |settled| == |released|
    && (forall i :: 0 <= i < |released| ==>
          released[i] in before.leases && settled[i] == before.leases[released[i]].task)
  }

  lemma RepairEnds(s: L.State, worker: WorkerId, owed: set<TaskId>, released: seq<LeaseId>,
                   settled: seq<TaskId>, leases: map<LeaseId, Lease>, tasks: map<TaskId, Task>)
    requires I.LeaseMatchesStatus(s.tasks, s.leases)
    requires Repairing(s, worker, owed, {}, released, settled, leases, tasks)
    ensures s.(leases := leases, tasks := tasks) == L.Reconcile(s, worker, owed)
    ensures Repaired(s, released, settled, leases)
  {
    RepairedLeases(s, worker, owed, released, settled, leases, tasks);
    forall t | t in tasks
      ensures t in s.tasks && tasks[t] == L.Reconcile(s, worker, owed).tasks[t]
    {
      RepairedRow(s, worker, owed, released, settled, leases, tasks, t);
    }
    assert tasks.Keys == s.tasks.Keys;
    hide L.Stale, L.TasksOf, Repairing, Repaired, I.LeaseMatchesStatus;
    assert tasks == L.Reconcile(s, worker, owed).tasks;
  }

  lemma FreedIsActive(s: L.State, stale: set<LeaseId>, t: TaskId)
    requires I.LeaseMatchesStatus(s.tasks, s.leases) && stale <= s.leases.Keys && t in L.TasksOf(s.leases, stale)
    ensures t in s.tasks && IsActive(s.tasks[t].status)
  {
  }

  /** Releasing by identity removes that one lease, if it is on this task, and no other. */
  lemma OwnLease(leases: map<LeaseId, Lease>, t: TaskId, id: LeaseId)
    ensures L.LeasesOn(leases, t) * {id} == if id in leases && leases[id].task == t then {id} else {}
  {
  }

  /** One expiry step per lease found, in order; no other lease has gone. */
  ghost predicate Swept(found: seq<LeaseId>, steps: seq<L.Step>, before: map<LeaseId, Lease>,
                        after: map<LeaseId, Lease>)
  {
    && |steps| == |found|
    && (forall j :: 0 <= j < |steps| ==> steps[j].DoExpire? && steps[j].lease == found[j])
    && after.Keys <= before.Keys && forall l :: l in before && l !in after ==> l in found
  }

  lemma SweptMeans(found: seq<LeaseId>, steps: seq<L.Step>, before: map<LeaseId, Lease>, after: map<LeaseId, Lease>)
    requires Swept(found, steps, before, after)
    ensures |steps| == |found| && after.Keys <= before.Keys
    ensures forall st :: st in steps ==> st.DoExpire? && st.lease in found
    ensures forall l :: l in found ==> exists st :: st in steps && st.lease == l
    ensures forall l :: l in before && l !in after ==> l in found
  {
    forall l | l in found ensures exists st :: st in steps && st.lease == l {
      var j :| 0 <= j < |found| && found[j] == l;
      assert steps[j] in steps;
    }
  }

  /** What the sweep query looks for: of the statuses it asks for every lease in the table is sure. */
  lemma ExpiredMeans(c: Config, s: L.State)
    requires I.Inv(c, s)
    ensures forall l :: l in s.leases ==> s.leases[l].task in s.tasks
    ensures forall l :: L.Expired(c, s, l) <==>
              && l in s.leases && s.leases[l].expiresAt < s.now
              && (c.instance == "" || s.tasks[s.leases[l].task].instance == c.instance)
  {
    hide I.Records, I.Accounts, I.Pending, I.Lifetimes;
  }

  lemma ExpireOthers(c: Config, s: L.State, l: LeaseId, m: LeaseId, jitter: nat, trace: string, v: Verdict, w: Verdict)
    requires I.LeaseMatchesStatus(s.tasks, s.leases) && L.Expired(c, s, l) && L.Expired(c, s, m) && l != m
    ensures L.Expired(c, L.ExpireLease(c, s, l, jitter, trace, v, w).state, m)
  {
    hide L.Settle, L.ExpiredReceipt, L.Escalation, L.RequeuedOnExpiry;
  }

  /** Acceptances read nothing of a task row that claiming writes. */
  lemma {:induction false} AcceptanceNeedsOnlyOwners(l: Rows, now: Time, tasks: map<TaskId, Task>, first: LeaseId,
                                                     all: seq<TaskId>, ts: seq<TaskId>, worker: WorkerId,
                                                     capabilities: set<string>, trace: string, vs: seq<Verdict>)
    requires forall t :: t in ts ==> t in tasks
    ensures forall t :: t in ts ==> t in L.ClaimedTasks(tasks, all)
    ensures L.Accepted(l, now, L.ClaimedTasks(tasks, all), first, ts, worker, capabilities, trace, vs)
            == L.Accepted(l, now, tasks, first, ts, worker, capabilities, trace, vs)
  {
    hide Emit, Obligation;
    if ts == [] {
    } else {
      AcceptanceNeedsOnlyOwners(l, now, tasks, first, all, ts[..|ts| - 1], worker, capabilities, trace, vs);
    }
  }
}
