/** The client of the external ledger and its durable outbox: a bounded queue of receipts that
    could not be delivered, mirrored in a file, retried with backoff and finally dropped. Its
    locked sections interleave with network calls made outside the lock. */
module Outbox {
  import opened Domain
  import opened Ledger
  import B = Breaker

  // ---------------------------------------------------------------------------------------
  // Data
  // ---------------------------------------------------------------------------------------

  datatype Parcel = Parcel(receipt: string, phase: Option<string>)

  datatype Item = Item(id: nat, parcel: Parcel, queuedAt: Time, nextRetryAt: Time, retries: int, lastError: string)

  /** The buffer file: absent, unreadable, or a list of entries, of which some may not be items. */
  datatype File = Missing | Unreadable | Entries(entries: seq<Option<Item>>)

  /** `mayBuffer` is the judgement of the shared transition model, by transition name. */
  datatype Settings = Settings(bufferSize: int, maxRetries: int, retryInterval: int, mayBuffer: string -> bool)

  const TRANSITIONS: map<string, string> :=
    map["accepted" := "ACCEPT", "complete" := "COMPLETE", "escalate" := "ESCALATE"]

  /** A phase may wait in the outbox only if its transition is known and judged bufferable. */
  predicate PhaseMayBuffer(c: Settings, phase: Option<string>) {
    phase.Some? && phase.value in TRANSITIONS && c.mayBuffer(TRANSITIONS[phase.value])
  }

  function Capacity(c: Settings): int { Max(1, c.bufferSize) }

  function MaxRetries(c: Settings): int { Max(0, c.maxRetries) }

  const ONE_HOUR: int := 3600

  /** Exponential backoff capped at one hour, in seconds. */
  function RetryDelay(c: Settings, retries: int): int {
    Min(Max(1, c.retryInterval) * Pow2(Max(0, retries - 1)), ONE_HOUR)
  }

  /** Delays never shrink from one retry to the next, and stay between a second and an hour. */
  lemma DelayBounds(c: Settings, m: int, n: int)
    requires m <= n
    ensures 1 <= RetryDelay(c, m) <= RetryDelay(c, n) <= ONE_HOUR
  {
    var a, b := Max(0, m - 1), Max(0, n - 1);
    PowGrows(a, b);
    ScaleGrows(Max(1, c.retryInterval), Pow2(a), Pow2(b));
  }

  lemma ScaleGrows(base: int, a: int, b: int)
    requires base >= 1 && 1 <= a <= b
    ensures 1 <= base * a <= base * b
  {
    assert base * b == base * a + base * (b - a);
  }

  lemma {:induction false} PowGrows(m: nat, n: nat)
    requires m <= n
    ensures 1 <= Pow2(m) <= Pow2(n)
  {
    if m < n {
      PowGrows(m, n - 1);
    } else if m > 0 {
      PowGrows(m - 1, m - 1);
    }
  }

  // ---------------------------------------------------------------------------------------
  // The locked sections
  // ---------------------------------------------------------------------------------------

  /** `queued` counts the receipts this process has loaded or queued; ids are never reused. */
  datatype Box = Box(now: Time, pending: seq<Item>, file: File, queued: nat, replayed: nat, dropped: nat, nextId: nat)

  function Saved(items: seq<Item>): File { Entries(seq(|items|, i requires 0 <= i < |items| => Some(items[i]))) }

  function Readable(entries: seq<Option<Item>>): seq<Item> {
    if entries == [] then []
    else
      var n := |entries| - 1;
      Readable(entries[..n]) + (if entries[n].Some? then [entries[n].value] else [])
  }

  function LastOf(items: seq<Item>, n: nat): seq<Item> {
    if |items| > n then items[|items| - n..] else items
  }

  function Load(c: Settings, f: File): seq<Item> {
    if f.Entries? then LastOf(Readable(f.entries), Capacity(c)) else []
  }

  function WithPending(s: Box, items: seq<Item>): Box { s.(pending := items, file := Saved(items)) }

  /** Queues a receipt, dropping the oldest when the buffer is full. `at` is the time read before
      the lock was taken. */
  function Buffer(c: Settings, s: Box, p: Parcel, error: string, at: Time): Box {
    var full := |s.pending| >= Capacity(c);
    var kept := if full then s.pending[1..] else s.pending;
    WithPending(s, kept + [Item(s.nextId, p, at, at, 0, error)])
      .(queued := s.queued + 1, nextId := s.nextId + 1, dropped := s.dropped + if full then 1 else 0)
  }

  /** Where the first item with this id is, or the length of the list. */
  function IndexOf(items: seq<Item>, id: nat): (i: nat)
    ensures i <= |items|
    ensures i < |items| ==> items[i].id == id
    ensures forall j :: 0 <= j < i ==> items[j].id != id
  {
    if items == [] || items[0].id == id then 0 else IndexOf(items[1..], id) + 1
  }

  function Without(items: seq<Item>, i: nat): seq<Item>
    requires i < |items|
  {
    items[..i] + items[i + 1..]
  }

  function Remove(s: Box, id: nat): Box {
    var i := IndexOf(s.pending, id);
    if i == |s.pending| then s
    else WithPending(s, Without(s.pending, i)).(replayed := s.replayed + 1)
  }

  function Retry(c: Settings, s: Box, id: nat, error: string): Box {
    var i := IndexOf(s.pending, id);
    if i == |s.pending| then s
    else
      var item := s.pending[i];
      if item.retries >= MaxRetries(c) then
        WithPending(s, Without(s.pending, i)).(dropped := s.dropped + 1)
      else
        var next := s.now + RetryDelay(c, item.retries + 1) * SECOND;
        WithPending(s, s.pending[i := item.(retries := item.retries + 1, lastError := error, nextRetryAt := next)])
  }

  /** What becomes of a receipt the ledger could not be reached for, whether the call failed or the
      circuit is open: it waits if its phase may, and otherwise the emission raises. */
  function Undelivered(c: Settings, s: Box, p: Parcel, error: string, at: Time): (Box, Verdict) {
    if PhaseMayBuffer(c, p.phase) then (Buffer(c, s, p, error, at), Buffered) else (s, Unbufferable)
  }

  /** A new process: its counters start again and its list comes from the file. */
  function Boot(c: Settings, now: Time, f: File, nextId: nat): Box {
    var items := Load(c, f);
    Box(now, items, f, |items|, 0, 0, nextId)
  }

  // ---------------------------------------------------------------------------------------
  // Runs
  // ---------------------------------------------------------------------------------------

  datatype Step =
    | Tick(at: Time)
    | GiveUp(parcel: Parcel, error: string, at: Time) // an emission found the ledger unreachable
    | Deliver(id: nat) // a replayed item was accepted
    | Miss(id: nat, error: string) // a replayed item failed or was blocked
    | Restart

  function Next(c: Settings, s: Box, step: Step): Box {
    match step
    case Tick(at) => s.(now := Max(s.now, at))
    case GiveUp(p, error, at) => Undelivered(c, s, p, error, at).0
    case Deliver(id) => Remove(s, id)
    case Miss(id, error) => Retry(c, s, id, error)
    case Restart => Boot(c, s.now, s.file, s.nextId)
  }

  function Run(c: Settings, s: Box, steps: seq<Step>): Box
    decreases |steps|
  {
    if steps == [] then s else Next(c, Run(c, s, steps[..|steps| - 1]), steps[|steps| - 1])
  }

  lemma RunNothing(c: Settings, s: Box)
    ensures Run(c, s, []) == s
  {
  }

  lemma RunOneMore(c: Settings, s: Box, steps: seq<Step>, step: Step)
    ensures Run(c, s, steps + [step]) == Next(c, Run(c, s, steps), step)
  {
    assert (steps + [step])[..|steps|] == steps;
  }

  // ---------------------------------------------------------------------------------------
  // Conservation
  // ---------------------------------------------------------------------------------------

  ghost predicate Counts(c: Settings, s: Box) {
    && s.queued == |s.pending| + s.replayed + s.dropped
    && |s.pending| <= Capacity(c)
    && Load(c, s.file) == s.pending
  }

  ghost predicate Inv(c: Settings, s: Box) {
    && Counts(c, s)
    && (forall i :: 0 <= i < |s.pending| ==> s.pending[i].id < s.nextId)
    && (forall i, j :: 0 <= i < j < |s.pending| ==> s.pending[i].id != s.pending[j].id)
  }

  /** Only phases that may wait are pending, apart from what the first process found in its file. */
  ghost predicate MayWait(c: Settings, s: Box, found: seq<Item>) {
    forall i :: 0 <= i < |s.pending| ==>
      PhaseMayBuffer(c, s.pending[i].parcel.phase) || Carries(found, s.pending[i].parcel)
  }

  predicate Carries(items: seq<Item>, p: Parcel) { exists i :: 0 <= i < |items| && items[i].parcel == p }

  /** What was saved is what is read. */
  lemma {:induction false} SavedIsReadable(items: seq<Item>)
    ensures Readable(Saved(items).entries) == items
  {
    if items == [] {
    } else {
      var n := |items| - 1;
      assert Saved(items).entries[..n] == Saved(items[..n]).entries;
      SavedIsReadable(items[..n]);
    }
  }

  /** Reloading the file a section has written gives back the list, if it is not too long. */
  lemma ReloadRoundTrip(c: Settings, items: seq<Item>)
    requires |items| <= Capacity(c)
    ensures Load(c, Saved(items)) == items
  {
    SavedIsReadable(items);
  }

  lemma EmptyBoxInv(c: Settings, now: Time, nextId: nat)
    ensures Inv(c, Boot(c, now, Missing, nextId))
  {
  }

  lemma BufferKeeps(c: Settings, s: Box, p: Parcel, error: string, at: Time)
    requires Counts(c, s)
    ensures Counts(c, Buffer(c, s, p, error, at))
    ensures Inv(c, s) ==> Inv(c, Buffer(c, s, p, error, at))
  {
    hide PhaseMayBuffer, Saved, Load;
    ReloadRoundTrip(c, Buffer(c, s, p, error, at).pending);
  }

  lemma RemoveKeeps(c: Settings, s: Box, id: nat)
    requires Counts(c, s)
    ensures Counts(c, Remove(s, id))
    ensures Inv(c, s) ==> Inv(c, Remove(s, id))
  {
    hide PhaseMayBuffer, Saved, Load, IndexOf;
    ReloadRoundTrip(c, Remove(s, id).pending);
  }

  lemma RetryKeeps(c: Settings, s: Box, id: nat, error: string)
    requires Counts(c, s)
    ensures Counts(c, Retry(c, s, id, error))
    ensures Inv(c, s) ==> Inv(c, Retry(c, s, id, error))
  {
    hide PhaseMayBuffer, Saved, Load, IndexOf, RetryDelay;
    ReloadRoundTrip(c, Retry(c, s, id, error).pending);
  }

  lemma NextKeeps(c: Settings, s: Box, step: Step)
    requires Counts(c, s)
    ensures Counts(c, Next(c, s, step))
    ensures Inv(c, s) ==> Inv(c, Next(c, s, step))
  {
    hide Load, PhaseMayBuffer, Buffer, Remove, Retry;
    match step
    case GiveUp(p, error, at) => BufferKeeps(c, s, p, error, at);
    case Deliver(id) => RemoveKeeps(c, s, id);
    case Miss(id, error) => RetryKeeps(c, s, id, error);
    case _ =>
  }

  lemma {:induction false} RunKeeps(c: Settings, s: Box, steps: seq<Step>)
    requires Counts(c, s)
    ensures Counts(c, Run(c, s, steps))
    ensures Inv(c, s) ==> Inv(c, Run(c, s, steps))
    decreases |steps|
  {
    hide Counts, Inv, Next;
    if steps == [] {
    } else {
      RunKeeps(c, s, steps[..|steps| - 1]);
      NextKeeps(c, Run(c, s, steps[..|steps| - 1]), steps[|steps| - 1]);
    }
  }

  lemma InvCounts(c: Settings, s: Box)
    requires Inv(c, s)
    ensures Counts(c, s)
  {
  }

  lemma BootCounts(c: Settings, now: Time, f: File, nextId: nat)
    ensures Counts(c, Boot(c, now, f, nextId)) && MayWait(c, Boot(c, now, f, nextId), Load(c, f))
  {
    hide Readable;
    var s := Boot(c, now, f, nextId);
    forall i | 0 <= i < |s.pending| ensures Carries(s.pending, s.pending[i].parcel) {}
  }

  lemma MayWaitNext(c: Settings, s: Box, step: Step, found: seq<Item>)
    requires Counts(c, s) && MayWait(c, s, found)
    ensures MayWait(c, Next(c, s, step), found)
  {
    hide PhaseMayBuffer, Carries, Load, Saved, RetryDelay, IndexOf;
  }

  lemma {:induction false} MayWaitThroughout(c: Settings, s: Box, steps: seq<Step>, found: seq<Item>)
    requires Counts(c, s) && MayWait(c, s, found)
    ensures MayWait(c, Run(c, s, steps), found)
    decreases |steps|
  {
    hide Counts, MayWait, Next;
    if steps == [] {
    } else {
      var n := |steps| - 1;
      MayWaitThroughout(c, s, steps[..n], found);
      RunKeeps(c, s, steps[..n]);
      MayWaitNext(c, Run(c, s, steps[..n]), steps[n], found);
    }
  }

  /** Whatever file it starts from, in any interleaving of its locked sections, and at any restart
      between them, the outbox accounts for every receipt its process was given, never outgrows its
      bound, takes in no receipt whose phase may not wait, and reloads to the very same list. */
  lemma Conservation(c: Settings, now: Time, f: File, nextId: nat, steps: seq<Step>)
    ensures var s := Run(c, Boot(c, now, f, nextId), steps);
            && s.queued == |s.pending| + s.replayed + s.dropped
            && |s.pending| <= Max(1, c.bufferSize)
            && (forall i :: 0 <= i < |s.pending| ==>
                  PhaseMayBuffer(c, s.pending[i].parcel.phase) || Carries(Load(c, f), s.pending[i].parcel))
            && Boot(c, s.now, s.file, s.nextId).pending == s.pending
  {
    hide Run, Load, PhaseMayBuffer, Carries;
    BootCounts(c, now, f, nextId);
    RunKeeps(c, Boot(c, now, f, nextId), steps);
    MayWaitThroughout(c, Boot(c, now, f, nextId), steps, Load(c, f));
  }

  // A process counts from its own start. These totals go on counting over restarts.

  datatype Totals = Totals(queued: nat, replayed: nat, dropped: nat)

  /** What step `step` adds to the lifetime totals. */
  function Counted(c: Settings, s: Box, step: Step, t: Totals): Totals {
    match step
    case GiveUp(p, _, _) =>
      if !PhaseMayBuffer(c, p.phase) then t
      else t.(queued := t.queued + 1, dropped := t.dropped + if |s.pending| >= Capacity(c) then 1 else 0)
    case Deliver(id) => if IndexOf(s.pending, id) < |s.pending| then t.(replayed := t.replayed + 1) else t
    case Miss(id, _) =>
      var i := IndexOf(s.pending, id);
      if i < |s.pending| && s.pending[i].retries >= MaxRetries(c) then t.(dropped := t.dropped + 1) else t
    case _ => t
  }

  /** The totals since the first start, with the receipts found in the file then. */
  function Lifetime(c: Settings, s: Box, steps: seq<Step>): Totals
    decreases |steps|
  {
    if steps == [] then Totals(|s.pending|, 0, 0)
    else
      var n := |steps| - 1;
      Counted(c, Run(c, s, steps[..n]), steps[n], Lifetime(c, s, steps[..n]))
  }

  lemma CountedBalances(c: Settings, s: Box, step: Step, t: Totals)
    requires Counts(c, s) && t.queued == |s.pending| + t.replayed + t.dropped
    ensures var t' := Counted(c, s, step, t);
            t'.queued == |Next(c, s, step).pending| + t'.replayed + t'.dropped
  {
    hide Load, Saved, PhaseMayBuffer, RetryDelay, IndexOf;
  }

  /** Over any number of restarts, every receipt ever queued is pending, was replayed or was dropped. */
  lemma {:induction false} LifetimeConservation(c: Settings, now: Time, f: File, nextId: nat, steps: seq<Step>)
    ensures var s := Boot(c, now, f, nextId);
            var t := Lifetime(c, s, steps);
            t.queued == |Run(c, s, steps).pending| + t.replayed + t.dropped
    decreases |steps|
  {
    hide Counts, Next, Boot, Counted;
    var s := Boot(c, now, f, nextId);
    if steps == [] {
    } else {
      var n := |steps| - 1;
      LifetimeConservation(c, now, f, nextId, steps[..n]);
      BootCounts(c, now, f, nextId);
      RunKeeps(c, s, steps[..n]);
      CountedBalances(c, Run(c, s, steps[..n]), steps[n], Lifetime(c, s, steps[..n]));
    }
  }

  /** If acceptances may not wait, an acceptance the ledger cannot be reached for changes nothing
      in the outbox and aborts the claim that emitted it, circuit open or not. */
  lemma AcceptanceFailsClosed(c: Settings, s: Box, p: Parcel, error: string, at: Time, l: Rows, d: Statement, now: Time)
    requires p.phase == Some("accepted") && !c.mayBuffer("ACCEPT") && d.rtype.TaskAccepted?
    ensures var (s', v) := Undelivered(c, s, p, error, at); s' == s && Emit(l, d, now, v).None?
  {
  }

  // ---------------------------------------------------------------------------------------
  // Termination of retries
  // ---------------------------------------------------------------------------------------

  /** How many more failed replays an item can take part in. */
  function Budget(c: Settings, item: Item): nat { Max(0, MaxRetries(c) - item.retries) + 1 }

  function Potential(c: Settings, items: seq<Item>): nat {
    if items == [] then 0 else Budget(c, items[0]) + Potential(c, items[1..])
  }

  lemma {:induction false} PotentialAppend(c: Settings, a: seq<Item>, b: seq<Item>)
    ensures Potential(c, a + b) == Potential(c, a) + Potential(c, b)
  {
    if a == [] {
      assert a + b == b;
    } else {
      assert (a + b)[1..] == a[1..] + b;
      PotentialAppend(c, a[1..], b);
    }
  }

  lemma PotentialAt(c: Settings, items: seq<Item>, i: nat, item: Item)
    requires i < |items|
    ensures Potential(c, items) == Potential(c, Without(items, i)) + Budget(c, items[i])
    ensures Potential(c, items[i := item]) == Potential(c, Without(items, i)) + Budget(c, item)
  {
    var a, b := items[..i], items[i + 1..];
    assert items == a + ([items[i]] + b) && items[i := item] == a + ([item] + b);
    PotentialAppend(c, a, b);
    PotentialAppend(c, a, [items[i]] + b);
    PotentialAppend(c, a, [item] + b);
  }

  /** A failed or blocked replay of a pending item costs exactly one; a delivered one at least one;
      and a newly queued receipt brings at most `maxRetries + 1`. */
  lemma StepSpends(c: Settings, s: Box, step: Step)
    requires Inv(c, s)
    ensures var before, after := Potential(c, s.pending), Potential(c, Next(c, s, step).pending);
            match step
            case Tick(_) => after == before
            case Restart => after == before
            case GiveUp(_, _, _) => after <= before + MaxRetries(c) + 1
            case Deliver(id) => if IndexOf(s.pending, id) < |s.pending| then after < before else after == before
            case Miss(id, _) => after == before - if IndexOf(s.pending, id) < |s.pending| then 1 else 0
  {
    hide Potential, Load, Saved, RetryDelay;
    match step
    case GiveUp(p, error, at) =>
      if PhaseMayBuffer(c, p.phase) {
        var item := Item(s.nextId, p, at, at, 0, error);
        var kept := if |s.pending| >= Capacity(c) then s.pending[1..] else s.pending;
        PotentialAppend(c, kept, [item]);
        if |s.pending| >= Capacity(c) {
          assert Without(s.pending, 0) == kept;
          PotentialAt(c, s.pending, 0, item);
        }
        PotentialOne(c, item);
      }
    case Deliver(id) =>
      var i := IndexOf(s.pending, id);
      if i < |s.pending| { PotentialAt(c, s.pending, i, s.pending[i]); }
    case Miss(id, error) =>
      var i := IndexOf(s.pending, id);
      var after := Next(c, s, step).pending;
      if i < |s.pending| {
        PotentialAt(c, s.pending, i, if i < |after| then after[i] else s.pending[i]);
      }
    case _ =>
  }

  lemma PotentialOne(c: Settings, item: Item)
    ensures Potential(c, [item]) == Budget(c, item)
  {
  }

  /** The step is a failed or blocked replay of item `id` while it is pending. */
  predicate Misses(s: Box, step: Step, id: nat) {
    step.Miss? && step.id == id && IndexOf(s.pending, id) < |s.pending|
  }

  /** How many failed replays of item `id` a run contains. */
  function MissesOf(c: Settings, s: Box, steps: seq<Step>, id: nat): nat
    decreases |steps|
  {
    if steps == [] then 0
    else
      var n := |steps| - 1;
      MissesOf(c, s, steps[..n], id) + (if Misses(Run(c, s, steps[..n]), steps[n], id) then 1 else 0)
  }

  /** What is known about item `id` after it has missed `n` times. */
  ghost predicate Tried(c: Settings, s: Box, id: nat, n: nat) {
    && (id >= s.nextId ==> n == 0)
    && n <= MaxRetries(c) + 1
    && (forall i :: 0 <= i < |s.pending| && s.pending[i].id == id ==> s.pending[i].retries == n <= MaxRetries(c))
  }

  lemma TriedNext(c: Settings, s: Box, step: Step, id: nat, n: nat)
    requires Inv(c, s) && Tried(c, s, id, n)
    ensures Tried(c, Next(c, s, step), id, n + if Misses(s, step, id) then 1 else 0)
  {
    hide Saved, RetryDelay, PhaseMayBuffer, Load;
  }

  lemma {:induction false} TriedThroughout(c: Settings, now: Time, nextId: nat, steps: seq<Step>, id: nat)
    ensures var s := Boot(c, now, Missing, nextId);
            Tried(c, Run(c, s, steps), id, MissesOf(c, s, steps, id))
    decreases |steps|
  {
    hide Inv, Tried, Misses, Next;
    var s := Boot(c, now, Missing, nextId);
    if steps == [] {
      NothingTried(c, now, nextId, id);
    } else {
      var n := |steps| - 1;
      TriedThroughout(c, now, nextId, steps[..n], id);
      EmptyBoxInv(c, now, nextId);
      RunKeeps(c, s, steps[..n]);
      TriedNext(c, Run(c, s, steps[..n]), steps[n], id, MissesOf(c, s, steps[..n], id));
    }
  }

  lemma NothingTried(c: Settings, now: Time, nextId: nat, id: nat)
    ensures Tried(c, Boot(c, now, Missing, nextId), id, 0)
  {
  }

  /** Replay ends for every item: over a whole run, restarts included, it fails at most
      `maxRetries + 1` times, and an item still waiting has failed as often as its count says. */
  lemma RetriesBounded(c: Settings, now: Time, nextId: nat, steps: seq<Step>, id: nat)
    ensures var s := Boot(c, now, Missing, nextId);
            var s' := Run(c, s, steps);
            && MissesOf(c, s, steps, id) <= Max(0, c.maxRetries) + 1
            && forall i :: 0 <= i < |s'.pending| && s'.pending[i].id == id ==>
                 s'.pending[i].retries == MissesOf(c, s, steps, id)
  {
    TriedThroughout(c, now, nextId, steps, id);
  }

  // ---------------------------------------------------------------------------------------
  // What the queue gives up, and when it tries again
  // ---------------------------------------------------------------------------------------

  /** A receipt the ledger cannot be reached for joins the end of the queue if the judgement of the
      transition its phase stands for lets it wait, and a full queue gives up its first item for it.
      The emission of any other one raises, and the outbox stays as it is. */
  lemma JoinsTheEnd(c: Settings, s: Box, p: Parcel, error: string, at: Time)
    ensures var waits := || (p.phase == Some("accepted") && c.mayBuffer("ACCEPT"))
                         || (p.phase == Some("complete") && c.mayBuffer("COMPLETE"))
                         || (p.phase == Some("escalate") && c.mayBuffer("ESCALATE"));
            var full := |s.pending| >= 1 && |s.pending| >= c.bufferSize;
            var s' := Next(c, s, GiveUp(p, error, at));
            && Undelivered(c, s, p, error, at) == (s', if waits then Buffered else Unbufferable)
            && (!waits ==> s' == s)
            && (waits ==>
                  && s'.pending == (if full then s.pending[1..] else s.pending) + [Item(s.nextId, p, at, at, 0, error)]
                  && s'.dropped == s.dropped + (if full then 1 else 0) && s'.queued == s.queued + 1
                  && s'.replayed == s.replayed && s'.nextId == s.nextId + 1 && s'.now == s.now)
  {
    hide Saved;
  }

  /** A new process takes over the readable entries of its file in their order, of too many the
      newest: one entry more at the end of the file is one item more at the end of the list. */
  lemma LoadsTheNewest(c: Settings, now: Time, entries: seq<Option<Item>>, entry: Option<Item>, nextId: nat)
    ensures var items := Boot(c, now, Entries(entries), nextId).pending;
            var full := |items| >= 1 && |items| >= c.bufferSize;
            Boot(c, now, Entries(entries + [entry]), nextId).pending ==
              if entry.None? then items else (if full then items[1..] else items) + [entry.value]
    ensures Boot(c, now, Entries([]), nextId).pending == [] && Boot(c, now, Missing, nextId).pending == []
    ensures Boot(c, now, Unreadable, nextId).pending == []
  {
    assert (entries + [entry])[..|entries|] == entries;
    assert Readable(entries + [entry]) == Readable(entries) + if entry.Some? then [entry.value] else [];
  }

  ghost predicate Ascends(s: Box) {
    && (forall i, j :: 0 <= i < j < |s.pending| ==> s.pending[i].id < s.pending[j].id)
    && (forall i :: 0 <= i < |s.pending| ==> s.pending[i].id < s.nextId)
  }

  /** Item `id` is older than everything that waits. */
  ghost predicate Before(s: Box, id: nat) {
    id < s.nextId && forall i :: 0 <= i < |s.pending| ==> id < s.pending[i].id
  }

  lemma AscendsNext(c: Settings, s: Box, step: Step)
    requires Counts(c, s) && Ascends(s)
    ensures Ascends(Next(c, s, step))
  {
    hide PhaseMayBuffer, Load, Saved, RetryDelay, IndexOf, Buffer, Remove, Retry;
    match step
    case GiveUp(p, error, at) => AscendsBuffer(c, s, p, error, at);
    case Deliver(id) => AscendsRemove(s, id);
    case Miss(id, error) => AscendsRetry(c, s, id, error);
    case _ =>
  }

  lemma AscendsBuffer(c: Settings, s: Box, p: Parcel, error: string, at: Time)
    requires Ascends(s)
    ensures Ascends(Buffer(c, s, p, error, at))
  {
    hide Saved;
  }

  lemma AscendsRemove(s: Box, id: nat)
    requires Ascends(s)
    ensures Ascends(Remove(s, id))
  {
    hide Saved, IndexOf;
  }

  lemma AscendsRetry(c: Settings, s: Box, id: nat, error: string)
    requires Ascends(s)
    ensures Ascends(Retry(c, s, id, error))
  {
    hide Saved, IndexOf, RetryDelay;
  }

  lemma BeforeNext(c: Settings, s: Box, step: Step, id: nat)
    requires Counts(c, s) && Before(s, id)
    ensures Before(Next(c, s, step), id)
  {
    hide PhaseMayBuffer, Load, Saved, RetryDelay, IndexOf;
  }

  /** The queue is in order of age: its ids ascend in every reachable outbox, restarts included. */
  lemma {:induction false} IdsAscend(c: Settings, now: Time, nextId: nat, steps: seq<Step>)
    ensures var s := Run(c, Boot(c, now, Missing, nextId), steps);
            && (forall i, j :: 0 <= i < j < |s.pending| ==> s.pending[i].id < s.pending[j].id)
            && (forall i :: 0 <= i < |s.pending| ==> s.pending[i].id < s.nextId)
    ensures Ascends(Run(c, Boot(c, now, Missing, nextId), steps))
    ensures Counts(c, Run(c, Boot(c, now, Missing, nextId), steps))
    decreases |steps|
  {
    hide Counts, Next;
    var s := Boot(c, now, Missing, nextId);
    BootCounts(c, now, Missing, nextId);
    RunKeeps(c, s, steps);
    if steps == [] {
      NothingWaits(c, now, nextId);
    } else {
      var n := |steps| - 1;
      IdsAscend(c, now, nextId, steps[..n]);
      AscendsNext(c, Run(c, s, steps[..n]), steps[n]);
    }
  }

  lemma NothingWaits(c: Settings, now: Time, nextId: nat)
    ensures Ascends(Boot(c, now, Missing, nextId))
  {
  }

  lemma GivenUpIsBefore(c: Settings, s: Box, step: Step, x: Item)
    requires Counts(c, s) && Ascends(s) && step.GiveUp? && x in s.pending && x !in Next(c, s, step).pending
    ensures Before(Next(c, s, step), x.id)
  {
    hide PhaseMayBuffer, Load, Saved, RetryDelay, IndexOf;
    assert forall y :: y in s.pending[1..] ==> y in Next(c, s, step).pending;
    assert x == s.pending[0];
  }

  /** Whatever the arrival of another receipt has pushed out, at any step `k` of a run, is older than
      everything that still waits at its end. */
  lemma {:induction false} OverflowTakesTheOldest(c: Settings, now: Time, nextId: nat, steps: seq<Step>, k: nat,
                                                  x: Item)
    requires k < |steps| && steps[k].GiveUp?
    requires x in Run(c, Boot(c, now, Missing, nextId), steps[..k]).pending
    requires x !in Run(c, Boot(c, now, Missing, nextId), steps[..k + 1]).pending
    ensures var s := Run(c, Boot(c, now, Missing, nextId), steps);
            forall i :: 0 <= i < |s.pending| ==> x.id < s.pending[i].id
    ensures Before(Run(c, Boot(c, now, Missing, nextId), steps), x.id)
    decreases |steps|
  {
    hide Counts, Next, Boot;
    var s := Boot(c, now, Missing, nextId);
    var n := |steps| - 1;
    IdsAscend(c, now, nextId, steps);
    IdsAscend(c, now, nextId, steps[..n]);
    if k == n {
      assert steps[..n + 1] == steps;
      GivenUpIsBefore(c, Run(c, s, steps[..n]), steps[n], x);
    } else {
      assert steps[..n][..k] == steps[..k] && steps[..n][..k + 1] == steps[..k + 1];
      OverflowTakesTheOldest(c, now, nextId, steps[..n], k, x);
      BeforeNext(c, Run(c, s, steps[..n]), steps[n], x.id);
    }
  }

  /** An item whose replay fails or is blocked waits first for the configured interval, at least a
      second, and then twice as long every time, but never more than an hour. It keeps its place,
      its receipt and its age. Once it has been retried as often as allowed it is dropped instead. */
  lemma RetryWaits(c: Settings, s: Box, i: nat, error: string)
    requires i < |s.pending| && forall j :: 0 <= j < i ==> s.pending[j].id != s.pending[i].id
    ensures var item := s.pending[i];
            var first := if c.retryInterval >= 1 then c.retryInterval else 1;
            var wait := Doubled(first, if item.retries >= 0 then item.retries else 0);
            var eligible := s.now + (if wait <= 3600 then wait else 3600) * 1_000_000;
            var s' := Next(c, s, Miss(item.id, error));
            && s'.queued == s.queued && s'.replayed == s.replayed && s'.nextId == s.nextId && s'.now == s.now
            && (item.retries < 0 || item.retries < c.maxRetries ==>
                  && s'.pending == s.pending[i := Item(item.id, item.parcel, item.queuedAt, eligible,
                                                       item.retries + 1, error)]
                  && s'.dropped == s.dropped)
            && (item.retries >= 0 && item.retries >= c.maxRetries ==>
                  s'.pending == s.pending[..i] + s.pending[i + 1..] && s'.dropped == s.dropped + 1)
  {
    hide Saved, Pow2;
    DoubledIsPower(Max(1, c.retryInterval), Max(0, s.pending[i].retries));
    assert IndexOf(s.pending, s.pending[i].id) == i;
  }

  /** A delivered item leaves the queue, and the others close up. */
  lemma DeliveredLeaves(c: Settings, s: Box, i: nat)
    requires i < |s.pending| && forall j :: 0 <= j < i ==> s.pending[j].id != s.pending[i].id
    ensures var s' := Next(c, s, Deliver(s.pending[i].id));
            && s'.pending == s.pending[..i] + s.pending[i + 1..] && s'.replayed == s.replayed + 1
            && s'.dropped == s.dropped && s'.queued == s.queued && s'.nextId == s.nextId && s'.now == s.now
  {
    hide Saved;
    assert IndexOf(s.pending, s.pending[i].id) == i;
  }
}
