/** The append-only receipt ledger: what a receipt says, how a repeated receipt is recognised,
    and how the ledger alone answers questions about a task. */
module Ledger {
  import opened Domain

  /** Type-specific payloads. */
  datatype Body =
    | AssignedBody(taskType: string, capabilities: set<string>)
    | AcceptedBody(capabilities: set<string>)
    | StartedBody(startedAt: Time)
    | CompletedBody(payload: string, artifacts: Option<Artifacts>, deliveryProof: Option<string>)
    | FailedBody(error: string)
    | CanceledBody(actor: Principal, reason: string, at: Time)
    | RetryBody(error: string, attempt: nat, maxAttempts: int, nextEligibleAt: Option<Time>)
    | ResultReadyBody(status: TaskStatus, artifacts: Option<Artifacts>)
    | ProgressBody(data: string)
    | ExpiredBody(worker: WorkerId, attempt: nat)
    | EscalatedBody(reason: string, escalationTo: string)
    | AcknowledgedBody(receipt: ReceiptId)
    | AnomalyBody(original: ReceiptId, stripped: seq<ReceiptId>)

  /** Everything a receipt states. `trace` is the request's trace id, which the engine adds to
      every body and which therefore takes part in the receipt's identity. */
  datatype Statement = Statement(
    rtype: ReceiptType,
    from: Principal,
    to: Principal,
    task: Option<TaskId>,
    lease: Option<LeaseId>,
    parents: seq<ReceiptId>,
    body: Body,
    trace: string)

  /** A row of the receipts table. A row stored without a hash never matches a later receipt. */
  datatype Receipt = Receipt(id: ReceiptId, createdAt: Time, says: Statement, hashed: bool)

  /** The canonical record whose SHA-256 digest is the receipt hash: parents count as a
      multiset, because they are sorted before they are hashed. */
  datatype Canonical = Canonical(rtype: ReceiptType, task: Option<TaskId>, from: Principal, to: Principal,
                                 lease: Option<LeaseId>, parents: multiset<ReceiptId>, body: Body, trace: string)

  function Hash(d: Statement): Canonical {
    Canonical(d.rtype, d.task, d.from, d.to, d.lease, multiset(d.parents), d.body, d.trace)
  }

  /** Reordering parents never changes a receipt's identity; changing any other field does. */
  lemma HashIdentity(d: Statement, e: Statement)
    ensures Hash(d) == Hash(e) <==> d.(parents := []) == e.(parents := []) && multiset(d.parents) == multiset(e.parents)
  {
  }

  type Rows = seq<Receipt>

  /** A receipt with the same hash is already stored. */
  predicate Stored(l: Rows, d: Statement) {
    exists i :: 0 <= i < |l| && l[i].hashed && Hash(l[i].says) == Hash(d)
  }

  /** A success receipt must say where the work is. */
  predicate Locatable(d: Statement) {
    d.rtype.TaskCompleted? ==>
      d.body.CompletedBody? && (d.body.artifacts.Some? || d.body.deliveryProof.Some?)
  }

  /** A terminal receipt must name at least one parent, and every parent must be stored. */
  predicate Linked(l: Rows, d: Statement) {
    IsTerminalType(d.rtype) ==> d.parents != [] && forall p :: p in d.parents ==> p < |l|
  }

  /** What is stored for `d`: a success that cannot be located loses its parents, so that the
      obligation stays open. */
  function Stripped(d: Statement): Statement {
    if Locatable(d) then d else d.(parents := [])
  }

  function Anomaly(original: ReceiptId, d: Statement): Statement {
    Statement(SystemAnomaly, SERVICE_PRINCIPAL, d.to, d.task, None, [original],
              AnomalyBody(original, d.parents), d.trace)
  }

  /** The rows that recording `d` appends: none for a duplicate, one normally, and two for a
      success that cannot be located. */
  function Appended(l: Rows, d: Statement, now: Time): (m: Rows)
    ensures forall r :: r in m ==> r.says.task == d.task && r.createdAt == now
    ensures Locatable(d) ==> forall r :: r in m ==> r == Receipt(|l|, now, d, true)
  {
    if Stored(l, Stripped(d)) then []
    else
      var row := Receipt(|l|, now, Stripped(d), true);
      if Locatable(d) then [row] else [row, Receipt(|l| + 1, now, Anomaly(|l|, d), false)]
  }

  // ---------------------------------------------------------------------------------------
  // Emission
  // ---------------------------------------------------------------------------------------

  /** How one emission ends. `Committed`, `Refused` and `DeliveryFailed` come back from the external
      ledger without stopping the engine; `Buffered` and `Unbufferable` raise; `TooLarge` is a
      size limit of the local receipts table. */
  datatype Verdict = Committed | Refused | DeliveryFailed | Buffered | Unbufferable | TooLarge

  /** The receipt types that are forwarded to the external ledger. */
  const FORWARDED: set<ReceiptType> :=
    {TaskAccepted, TaskCompleted, TaskFailed, TaskCanceled, TaskEscalated}

  predicate Proceeds(t: ReceiptType, v: Verdict) {
    && !v.TooLarge?
    && (t in FORWARDED ==> !v.Buffered? && !v.Unbufferable?)
  }

  /** One emission: the ledger afterwards, or None when it raises and the enclosing unit of
      work is rolled back. */
  function Emit(l: Rows, d: Statement, now: Time, v: Verdict): Option<Rows> {
    if Linked(l, d) && Proceeds(d.rtype, v) then Some(l + Appended(l, d, now)) else None
  }

  function VerdictAt(vs: seq<Verdict>, i: nat): Verdict {
    if i < |vs| then vs[i] else Committed
  }

  // ---------------------------------------------------------------------------------------
  // Queries
  // ---------------------------------------------------------------------------------------

  predicate IsAssignment(r: Receipt, t: TaskId) {
    r.says.rtype.TaskAssigned? && r.says.task == Some(t)
  }

  /** The newest task.assigned receipt of `t` addressed to `owner`, or to anybody when no owner
      is given. */
  function NewestAssignment(l: Rows, t: TaskId, owner: Option<Principal>): (r: Option<ReceiptId>)
    ensures r.Some? ==> r.value < |l| && IsAssignment(l[r.value], t)
    ensures r.Some? && owner.Some? ==> l[r.value].says.to == owner.value
    ensures forall i :: 0 <= i < |l| && IsAssignment(l[i], t) && (r.Some? ==> r.value < i) ==>
              owner.Some? && l[i].says.to != owner.value
  {
    if |l| == 0 then None
    else
      var last := l[|l| - 1];
      if IsAssignment(last, t) && (owner.Some? ==> last.says.to == owner.value) then Some(|l| - 1)
      else NewestAssignment(l[..|l| - 1], t, owner)
  }

  /** The obligation of a task: preferably one addressed to the expected owner. */
  function Obligation(l: Rows, t: TaskId, owner: Principal): (r: Option<ReceiptId>)
    ensures r.Some? ==> r.value < |l| && IsAssignment(l[r.value], t)
    ensures r.None? <==> forall i :: 0 <= i < |l| ==> !IsAssignment(l[i], t)
  {
    var hinted := NewestAssignment(l, t, Some(owner));
    if hinted.Some? then hinted else NewestAssignment(l, t, None)
  }

  /** The obligation is the newest assignment addressed to the expected owner, and the newest of
      all only if none is addressed to the owner. */
  lemma ObligationIsPreferred(l: Rows, t: TaskId, owner: Principal, i: nat)
    requires i < |l| && IsAssignment(l[i], t)
    ensures Obligation(l, t, owner).Some?
    ensures var o := Obligation(l, t, owner).value;
            && IsAssignment(l[o], t)
            && (l[i].says.to == owner ==> l[o].says.to == owner && i <= o)
            && (l[o].says.to != owner ==> i <= o)
  {
    hide NewestAssignment;
  }

  /** Some terminal receipt names `id` as a parent. */
  predicate HasTerminator(l: Rows, id: ReceiptId) {
    exists i :: 0 <= i < |l| && IsTerminalType(l[i].says.rtype) && id in l[i].says.parents
  }

  /** What is closed stays closed. */
  lemma TerminatorStays(l: Rows, l': Rows, id: ReceiptId)
    requires l <= l' && HasTerminator(l, id)
    ensures HasTerminator(l', id)
  {
    var i :| 0 <= i < |l| && IsTerminalType(l[i].says.rtype) && id in l[i].says.parents;
    assert l'[i] == l[i];
  }

  /** The receipts about one task, in append order. */
  function Of(l: Rows, t: TaskId): Rows {
    if |l| == 0 then []
    else
      var last := l[|l| - 1];
      Of(l[..|l| - 1], t) + (if last.says.task == Some(t) then [last] else [])
  }

  lemma {:induction false} OfAppend(l: Rows, m: Rows, t: TaskId)
    ensures Of(l + m, t) == Of(l, t) + Of(m, t)
  {
    if m == [] {
      assert l + m == l;
    } else {
      var n := |m| - 1;
      OfAppend(l, m[..n], t);
      assert (l + m)[..|l + m| - 1] == l + m[..n];
    }
  }

  lemma {:induction false} OfAll(m: Rows, t: TaskId)
    requires forall r :: r in m ==> r.says.task == Some(t)
    ensures Of(m, t) == m
  {
    if m == [] {
    } else {
      OfAll(m[..|m| - 1], t);
    }
  }

  lemma {:induction false} OfNone(m: Rows, t: TaskId)
    requires forall r :: r in m ==> r.says.task != Some(t)
    ensures Of(m, t) == []
  {
    if m == [] {
    } else {
      OfNone(m[..|m| - 1], t);
    }
  }

  /** Appending receipts about one task extends that task's history and no other's. */
  lemma OfExtend(l: Rows, m: Rows, t: TaskId)
    requires forall r :: r in m ==> r.says.task == Some(t)
    ensures Of(l + m, t) == Of(l, t) + m
    ensures forall u :: u != t ==> Of(l + m, u) == Of(l, u)
  {
    OfAppend(l, m, t);
    OfAll(m, t);
    forall u | u != t ensures Of(l + m, u) == Of(l, u) {
      OfAppend(l, m, u);
      OfNone(m, u);
    }
  }

  lemma {:induction false} OfMember(l: Rows, t: TaskId, r: Receipt)
    ensures r in Of(l, t) <==> r in l && r.says.task == Some(t)
  {
    if |l| == 0 {
    } else {
      OfMember(l[..|l| - 1], t, r);
      assert l == l[..|l| - 1] + [l[|l| - 1]];
    }
  }

  // ---------------------------------------------------------------------------------------
  // What the ledger says about a task
  // ---------------------------------------------------------------------------------------

  /** The task row the ledger implies. */
  datatype Replayed = Replayed(known: bool, status: TaskStatus, attempt: nat,
                               lease: Option<LeaseId>, holder: Option<WorkerId>)

  const UNKNOWN := Replayed(false, Queued, 0, None, None)

  function ReplayOne(p: Replayed, d: Statement): Replayed {
    match d.rtype
    case TaskAssigned => p.(known := true)
    case TaskAccepted => p.(status := Leased, lease := d.lease, holder := Some(d.from.id))
    case TaskStarted => p.(status := Running)
    case TaskCompleted => p.(status := Succeeded, lease := None, holder := None)
    case TaskFailed => p.(status := Failed, lease := None, holder := None)
    case TaskCanceled => p.(status := Canceled, lease := None, holder := None)
    case TaskRetryScheduled => p.(status := Queued, attempt := p.attempt + 1, lease := None, holder := None)
    case LeaseExpired => p.(status := Queued, lease := None, holder := None)
    case _ => p
  }

  /** Folding a task's receipts in append order. */
  function Replay(h: Rows): Replayed {
    if |h| == 0 then UNKNOWN else ReplayOne(Replay(h[..|h| - 1]), h[|h| - 1].says)
  }

  /** The types of a task's terminal receipts, in append order. */
  function Outcomes(h: Rows): seq<ReceiptType> {
    if |h| == 0 then []
    else
      var d := h[|h| - 1].says;
      Outcomes(h[..|h| - 1]) + (if IsTerminalType(d.rtype) then [d.rtype] else [])
  }

  /** The receipts that a task's terminal receipts name as parents. */
  function Closes(h: Rows): seq<ReceiptId> {
    if |h| == 0 then []
    else
      var d := h[|h| - 1].says;
      Closes(h[..|h| - 1]) + (if IsTerminalType(d.rtype) then d.parents else [])
  }

  lemma {:induction false} ClosesMember(h: Rows, id: ReceiptId)
    ensures id in Closes(h) <==> exists i :: 0 <= i < |h| && IsTerminalType(h[i].says.rtype) && id in h[i].says.parents
  {
    if |h| == 0 {
    } else {
      var n := |h| - 1;
      ClosesMember(h[..n], id);
      if id in Closes(h[..n]) {
        var i :| 0 <= i < n && IsTerminalType(h[..n][i].says.rtype) && id in h[..n][i].says.parents;
        assert IsTerminalType(h[i].says.rtype) && id in h[i].says.parents;
      }
      forall i | 0 <= i < |h| && IsTerminalType(h[i].says.rtype) && id in h[i].says.parents ensures id in Closes(h) {
        if i < n {
          assert IsTerminalType(h[..n][i].says.rtype) && id in h[..n][i].says.parents;
        }
      }
    }
  }

  function Count(h: Rows, t: ReceiptType): nat {
    if |h| == 0 then 0
    else Count(h[..|h| - 1], t) + (if h[|h| - 1].says.rtype == t then 1 else 0)
  }

  lemma FoldAppend(h: Rows, r: Receipt)
    ensures Replay(h + [r]) == ReplayOne(Replay(h), r.says)
    ensures Outcomes(h + [r]) == Outcomes(h) + (if IsTerminalType(r.says.rtype) then [r.says.rtype] else [])
    ensures Closes(h + [r]) == Closes(h) + (if IsTerminalType(r.says.rtype) then r.says.parents else [])
    ensures forall t :: Count(h + [r], t) == Count(h, t) + (if r.says.rtype == t then 1 else 0)
  {
    assert (h + [r])[..|h + [r]| - 1] == h;
  }

  /** Receipts that change nothing a replay computes. */
  predicate Neutral(t: ReceiptType) {
    t in {TaskResultReady, TaskProgress, TaskEscalated, ReceiptAcknowledged, SystemAnomaly}
  }

  lemma {:induction false} FoldNeutral(h: Rows, m: Rows)
    requires forall r :: r in m ==> Neutral(r.says.rtype)
    ensures Replay(h + m) == Replay(h)
    ensures Outcomes(h + m) == Outcomes(h) && Closes(h + m) == Closes(h)
    ensures forall t :: !Neutral(t) ==> Count(h + m, t) == Count(h, t)
    ensures (forall r :: r in m ==> !r.says.rtype.SystemAnomaly?) ==>
              Count(h + m, SystemAnomaly) == Count(h, SystemAnomaly)
  {
    hide Replay, Outcomes, Closes, Count;
    if m == [] {
      assert h + m == h;
    } else {
      var n := |m| - 1;
      FoldNeutral(h, m[..n]);
      FoldAppend(h + m[..n], m[n]);
      assert h + m == h + m[..n] + [m[n]];
    }
  }
}
