/** The vocabulary of AsyncGate: task statuses, receipt types, principals and the rows of the
    task and lease tables.

    Times are microseconds, the resolution of the datetimes the service stores. Configuration
    values and request parameters stay in seconds, as the service has them. */
module Domain {

  datatype Option<+T> = None | Some(value: T)

  type Time = int
  type TaskId = nat
  type LeaseId = nat
  type ReceiptId = nat
  type CallId = nat
  type WorkerId = string

  const SECOND: int := 1_000_000

  function Min(a: int, b: int): int { if a <= b then a else b }

  function Max(a: int, b: int): int { if a >= b then a else b }

  function Pow2(n: nat): nat { if n == 0 then 1 else 2 * Pow2(n - 1) }

  /** `base` doubled `n` times. */
  function Doubled(base: int, n: nat): int { if n == 0 then base else 2 * Doubled(base, n - 1) }

  lemma {:induction false} DoubledIsPower(base: int, n: nat)
    ensures Doubled(base, n) == base * Pow2(n)
  {
    if n == 0 {
    } else {
      DoubledIsPower(base, n - 1);
      assert base * (2 * Pow2(n - 1)) == 2 * (base * Pow2(n - 1));
    }
  }

  /** Python's `x or default` for an optional integer: zero counts as absent. */
  function OrDefault(x: Option<int>, default: int): int {
    if x.Some? && x.value != 0 then x.value else default
  }

  // ---------------------------------------------------------------------------------------
  // Task statuses
  // ---------------------------------------------------------------------------------------

  datatype TaskStatus = Queued | Leased | Running | Succeeded | Failed | Canceled

  predicate IsTerminal(s: TaskStatus) { s in {Succeeded, Failed, Canceled} }

  /** The statuses in which some worker holds the task. */
  predicate IsActive(s: TaskStatus) { s in {Leased, Running} }

  function ValidTransitions(s: TaskStatus): set<TaskStatus> {
    match s
    case Queued => {Leased, Canceled}
    case Leased => {Running, Succeeded, Failed, Canceled, Queued}
    case Running => {Succeeded, Failed, Canceled, Queued}
    case Failed => {Queued}
    case Succeeded => {}
    case Canceled => {}
  }

  predicate CanTransition(from: TaskStatus, to: TaskStatus) { to in ValidTransitions(from) }

  // ---------------------------------------------------------------------------------------
  // Principals and receipt types
  // ---------------------------------------------------------------------------------------

  datatype PrincipalKind = Agent | Worker | Service | System | Human

  datatype Principal = Principal(kind: PrincipalKind, id: string)

  const SERVICE_PRINCIPAL := Principal(Service, "svc:asyncgate")

  function WorkerPrincipal(w: WorkerId): Principal { Principal(Worker, w) }

  datatype ReceiptType =
    | TaskAssigned
    | TaskAccepted
    | TaskStarted
    | TaskCompleted
    | TaskFailed
    | TaskCanceled
    | TaskRetryScheduled
    | TaskResultReady
    | TaskProgress
    | LeaseExpired
    | TaskEscalated
    | ReceiptAcknowledged
    | SystemAnomaly

  /** Which receipt types can discharge which obligation types. */
  const TERMINATION_RULES: map<ReceiptType, set<ReceiptType>> :=
    map[TaskAssigned := {TaskCompleted, TaskFailed, TaskCanceled}]

  const TERMINAL_RECEIPT_TYPES: set<ReceiptType> := {TaskCompleted, TaskFailed, TaskCanceled}

  predicate IsTerminalType(t: ReceiptType) { t in TERMINAL_RECEIPT_TYPES }

  predicate CreatesObligation(t: ReceiptType) { t in TERMINATION_RULES }

  predicate CanTerminate(terminal: ReceiptType, obligation: ReceiptType) {
    obligation in TERMINATION_RULES && terminal in TERMINATION_RULES[obligation]
  }

  /** The canonical terminal set is the union of the rule table: a type is terminal exactly
      when some registered obligation type can be discharged by it. */
  lemma TerminalIffTerminatesSomething(t: ReceiptType)
    ensures IsTerminalType(t) <==> exists o :: o in TERMINATION_RULES && CanTerminate(t, o)
  {
    if IsTerminalType(t) {
      assert TaskAssigned in TERMINATION_RULES && CanTerminate(t, TaskAssigned);
    }
  }

  /** The terminal receipt type that belongs to a terminal status. */
  function TerminalTypeOf(s: TaskStatus): ReceiptType
    requires IsTerminal(s)
  {
    match s
    case Succeeded => TaskCompleted
    case Failed => TaskFailed
    case Canceled => TaskCanceled
  }

  // ---------------------------------------------------------------------------------------
  // Table rows
  // ---------------------------------------------------------------------------------------

  type Artifacts = seq<string>

  datatype TaskResult = TaskResult(outcome: TaskStatus, artifacts: Option<Artifacts>,
                                   detail: string, completedAt: Time)

  datatype Task = Task(
    taskType: string,
    owner: Principal,
    capabilities: set<string>,
    priority: int,
    status: TaskStatus,
    attempt: nat,
    maxAttempts: int,
    backoffSeconds: int,
    createdAt: Time,
    nextEligibleAt: Option<Time>,
    startedAt: Option<Time>,
    result: Option<TaskResult>,
    instance: string)

  datatype Lease = Lease(
    task: TaskId,
    worker: WorkerId,
    expiresAt: Time,
    acquiredAt: Time,
    renewals: int)

  /** The settings the engine reads. Nothing is assumed about their values. */
  datatype Config = Config(
    defaultLeaseTtl: int,
    maxLeaseTtl: int,
    maxLeaseRenewals: int,
    maxLeaseLifetime: int,
    defaultMaxAttempts: int,
    defaultBackoff: int,
    maxBackoff: int,
    defaultPriority: int,
    instance: string,
    escalationEnabled: bool,
    escalationTarget: Option<Principal>)
}
