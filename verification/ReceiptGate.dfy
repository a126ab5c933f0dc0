/** The client object of the external ledger, updated in place: emission through the circuit
    breaker, the buffer behind it, and the replay pass that works the buffer off. */
module ReceiptGate {
  import opened Domain
  import opened Ledger
  import B = Breaker
  import O = Outbox

  /** What the network call of an emission comes back with. */
  datatype Answer = Accepted | RefusedByLedger | Unreachable(error: string)

  /** After the locked section of the breaker an emission is either on its way or over. */
  datatype Entry = OnItsWay | Over(verdict: Verdict)

  /** What a replayed item meets: an open circuit, or an answer of the ledger or of the network. */
  datatype Attempt = Sent | Blocked(error: string) | RefusedByLedger(error: string) | Failed(error: string)

  datatype Summary = Summary(replayed: nat, failed: nat, blocked: nat, remaining: nat)

  // ---------------------------------------------------------------------------------------
  // The batch a replay pass takes on
  // ---------------------------------------------------------------------------------------

  function Due(items: seq<O.Item>, now: Time): (due: seq<O.Item>)
    ensures forall x :: x in due <==> x in items && x.nextRetryAt <= now
  {
    if items == [] then []
    else
      var n := |items| - 1;
      Due(items[..n], now) + (if items[n].nextRetryAt <= now then [items[n]] else [])
  }

  predicate Sorted(items: seq<O.Item>) {
    forall i, j :: 0 <= i < j < |items| ==> items[i].queuedAt <= items[j].queuedAt
  }

  /** Puts an item behind those that were queued no later. */
  function Insert(items: seq<O.Item>, x: O.Item): (r: seq<O.Item>)
    ensures |r| == |items| + 1
    ensures forall y :: y in r <==> y in items || y == x
  {
    if items == [] || items[|items| - 1].queuedAt <= x.queuedAt then items + [x]
    else
      var n := |items| - 1;
      Insert(items[..n], x) + [items[n]]
  }

  /** Python's stable sort by queueing time. */
  function ByQueuedAt(items: seq<O.Item>): (r: seq<O.Item>)
    ensures |r| == |items|
    ensures forall x :: x in r <==> x in items
  {
    if items == [] then [] else Insert(ByQueuedAt(items[..|items| - 1]), items[|items| - 1])
  }

  lemma {:induction false} InsertSorted(items: seq<O.Item>, x: O.Item)
    requires Sorted(items)
    ensures Sorted(Insert(items, x))
  {
    if !(items == [] || items[|items| - 1].queuedAt <= x.queuedAt) {
      var n := |items| - 1;
      InsertSorted(items[..n], x);
      forall y | y in Insert(items[..n], x) ensures y.queuedAt <= items[n].queuedAt {
        if y != x { assert y in items[..n]; }
      }
    }
  }

  lemma {:induction false} ByQueuedAtSorted(items: seq<O.Item>)
    ensures Sorted(ByQueuedAt(items))
  {
    if items == [] {
    } else {
      ByQueuedAtSorted(items[..|items| - 1]);
      InsertSorted(ByQueuedAt(items[..|items| - 1]), items[|items| - 1]);
    }
  }

  function Batch(items: seq<O.Item>, now: Time, limit: int): seq<O.Item> {
    var due := ByQueuedAt(Due(items, now));
    if |due| > Max(1, limit) then due[..Max(1, limit)] else due
  }

  /** A pass takes on only due items, and no due item it leaves behind was queued before one it
      takes. */
  lemma BatchIsOldestDue(items: seq<O.Item>, now: Time, limit: int, x: O.Item, y: O.Item)
    requires x in Batch(items, now, limit)
    ensures x in items && x.nextRetryAt <= now
    ensures y in items && y.nextRetryAt <= now && y !in Batch(items, now, limit) ==> x.queuedAt <= y.queuedAt
  {
    var due := ByQueuedAt(Due(items, now));
    ByQueuedAtSorted(Due(items, now));
    var i :| 0 <= i < |Batch(items, now, limit)| && Batch(items, now, limit)[i] == x;
    assert due[i] == x;
    if y in items && y.nextRetryAt <= now && y !in Batch(items, now, limit) {
      var j :| 0 <= j < |due| && due[j] == y;
    }
  }

  /** A pass takes as many due items as it may: at most the limit, one at least if there is one, in
      the order they were queued in; and if it takes fewer it takes all of them. */
  lemma TakesAllItMay(items: seq<O.Item>, now: Time, limit: int)
    requires forall i, j :: 0 <= i < j < |items| ==> items[i].id != items[j].id
    ensures var batch := Batch(items, now, limit);
            && |batch| <= (if limit >= 1 then limit else 1)
            && (forall i, j :: 0 <= i < j < |batch| ==>
                  batch[i].queuedAt <= batch[j].queuedAt && batch[i].id != batch[j].id)
            && (|batch| < limit || batch == [] ==> forall x :: x in items && x.nextRetryAt <= now ==> x in batch)
  {
    ByQueuedAtSorted(Due(items, now));
    BatchDistinct(items, now, limit);
  }

  // ---------------------------------------------------------------------------------------
  // The client
  // ---------------------------------------------------------------------------------------

  class ReceiptGateClient {
    const settings: O.Settings
    const breaker: B.CircuitBreaker?
    var now: Time
    var buffered: seq<O.Item>
    var file: O.File
    var queued: nat
    var replayedSuccesses: nat
    var replayedFailures: nat
    var dropped: nat
    var nextId: nat

    ghost function View(): O.Box
      reads this
    {
      O.Box(now, buffered, file, queued, replayedSuccesses, dropped, nextId)
    }

    /** The settings of the breaker, if there is one, and its state. */
    ghost function Guard(): Option<B.Limits> { if breaker == null then None else Some(breaker.config) }

    ghost function Circuit(): B.Circuit
      reads breaker
    {
      if breaker == null then B.FRESH else breaker.View()
    }

    ghost predicate Valid()
      reads this
    {
      O.Inv(settings, View())
    }

    /** A new process reads its buffer, leaving out entries that are no items and keeping the
        newest if there are too many. */
    constructor (settings: O.Settings, breaker: B.CircuitBreaker?, now: Time, file: O.File, nextId: nat)
      ensures View() == O.Boot(settings, now, file, nextId)
      ensures this.settings == settings && this.breaker == breaker && replayedFailures == 0
    {
      var loaded := [];
      if file.Entries? {
        for i := 0 to |file.entries|
          invariant loaded == O.Readable(file.entries[..i])
        {
          assert file.entries[..i + 1][..i] == file.entries[..i];
          if file.entries[i].Some? {
            loaded := loaded + [file.entries[i].value];
          }
        }
        assert file.entries[..|file.entries|] == file.entries;
        var keep := Max(1, settings.bufferSize);
        if |loaded| > keep {
          loaded := loaded[|loaded| - keep..];
        }
      }
      this.settings, this.breaker, this.now, this.file, this.nextId := settings, breaker, now, file, nextId;
      buffered, queued, replayedSuccesses, replayedFailures, dropped := loaded, |loaded|, 0, 0, 0;
    }

    method Persist()
      modifies this`file
      ensures file == O.Saved(buffered)
    {
      file := O.Saved(buffered);
    }

    method BufferReceipt(p: O.Parcel, error: string, at: Time)
      modifies this
      ensures View() == O.Buffer(settings, old(View()), p, error, at)
      ensures replayedFailures == old(replayedFailures)
    {
      var item := O.Item(nextId, p, at, at, 0, error);
      nextId := nextId + 1;
      queued := queued + 1;
      if |buffered| >= Max(1, settings.bufferSize) {
        buffered := buffered[1..];
        dropped := dropped + 1;
      }
      buffered := buffered + [item];
      Persist();
    }

    /** The index of the first item with this id. */
    method Find(id: nat) returns (found: bool, at: nat)
      ensures at == O.IndexOf(buffered, id) && found == (at < |buffered|)
    {
      at := 0;
      while at < |buffered| && buffered[at].id != id
        invariant 0 <= at <= |buffered|
        invariant O.IndexOf(buffered, id) == at + O.IndexOf(buffered[at..], id)
      {
        assert buffered[at..][1..] == buffered[at + 1..];
        at := at + 1;
      }
      found := at < |buffered|;
    }

    method RemoveBufferItem(id: nat) returns (removed: bool)
      modifies this`buffered, this`file
      ensures removed == (O.IndexOf(old(buffered), id) < |old(buffered)|)
      ensures View() == O.Remove(old(View()), id).(replayed := old(replayedSuccesses))
    {
      var at;
      removed, at := Find(id);
      if removed {
        buffered := buffered[..at] + buffered[at + 1..];
        Persist();
      }
    }

    method ScheduleRetry(id: nat, error: string)
      modifies this`buffered, this`file, this`dropped
      ensures View() == O.Retry(settings, old(View()), id, error)
    {
      var found, at := Find(id);
      if found {
        var item := buffered[at];
        if item.retries >= Max(0, settings.maxRetries) {
          buffered := buffered[..at] + buffered[at + 1..];
          dropped := dropped + 1;
        } else {
          var retries := item.retries + 1;
          buffered := buffered[at := item.(retries := retries, lastError := error,
                                           nextRetryAt := now + O.RetryDelay(settings, retries) * SECOND)];
        }
        Persist();
      }
    }

    /** The ledger cannot be reached for this receipt. */
    method GiveUp(p: O.Parcel, error: string, at: Time) returns (v: Verdict)
      modifies this
      ensures (View(), v) == O.Undelivered(settings, old(View()), p, error, at)
    {
      if O.PhaseMayBuffer(settings, p.phase) {
        BufferReceipt(p, error, at);
        return Buffered;
      }
      return Unbufferable;
    }

    /** The first half of an emission: the breaker lets the call through, or the receipt takes the
        way of an unreachable ledger. */
    method BeginEmit(p: O.Parcel, at: Time) returns (e: Entry)
      modifies this, breaker
      ensures breaker == null ==> e.OnItsWay? && View() == old(View())
      ensures breaker != null ==>
                var a := B.Admit(breaker.config, old(breaker.View()), at);
                && breaker.View() == a.circuit
                && (if a.admitted then e.OnItsWay? && View() == old(View())
                    else e.Over? && (View(), e.verdict) == O.Undelivered(settings, old(View()), p, "circuit_open", at))
    {
      if breaker != null {
        var admitted, _ := breaker.Enter(at);
        if !admitted {
          var v := GiveUp(p, "circuit_open", at);
          return Over(v);
        }
      }
      return OnItsWay;
    }

    /** The second half, when the network call has come back. A refusal is an answer: nothing is
        recorded, nothing is buffered. */
    method EndEmit(p: O.Parcel, answer: Answer, at: Time) returns (v: Verdict)
      modifies this, breaker
      ensures match answer
              case Accepted => v.Committed? && View() == old(View())
              case RefusedByLedger => v.Refused? && View() == old(View())
              case Unreachable(error) => (View(), v) == O.Undelivered(settings, old(View()), p, error, at)
      ensures breaker != null ==>
                breaker.View() == match answer
                                  case Accepted => B.OnSuccess(breaker.config, old(breaker.View()))
                                  case RefusedByLedger => old(breaker.View())
                                  case Unreachable(_) => B.OnFailure(breaker.config, old(breaker.View()), at)
    {
      match answer {
        case Accepted =>
          if breaker != null { breaker.RecordSuccess(); }
          return Committed;
        case RefusedByLedger =>
          return Refused;
        case Unreachable(error) =>
          if breaker != null { breaker.RecordFailure(at); }
          v := GiveUp(p, error, at);
      }
    }

    /** Sends one item through the breaker, without a fallback. */
    method TryToSend(answer: Answer) returns (attempt: Attempt)
      modifies breaker
      ensures (Circuit(), attempt) == Meets(Guard(), old(Circuit()), now, answer)
    {
      if breaker != null {
        var admitted, _ := breaker.Enter(now);
        if !admitted {
          return Blocked("circuit_open");
        }
      }
      match answer {
        case Accepted =>
          if breaker != null { breaker.RecordSuccess(); }
          return Sent;
        case RefusedByLedger =>
          return Attempt.RefusedByLedger("refused");
        case Unreachable(error) =>
          if breaker != null { breaker.RecordFailure(now); }
          return Attempt.Failed(error);
      }
    }

    /** What happens to an item of the pass afterwards. Whatever it met other than success counts as
        a failed replay. */
    method Settle(item: O.Item, attempt: Attempt)
      requires Valid() && IsPending(buffered, item.id)
      modifies this`buffered, this`file, this`dropped, this`replayedSuccesses, this`replayedFailures
      ensures Valid() && View() == O.Next(settings, old(View()), StepFor(item, attempt))
      ensures replayedSuccesses == old(replayedSuccesses) + if attempt.Sent? then 1 else 0
      ensures replayedFailures == old(replayedFailures) + if attempt.Sent? then 0 else 1
      ensures O.Potential(settings, buffered) + 1 <= O.Potential(settings, old(buffered))
      ensures forall id :: id != item.id && IsPending(old(buffered), id) ==> IsPending(buffered, id)
    {
      hide O.Inv, O.Counts, O.Potential, O.Retry;
      ghost var before, step := View(), StepFor(item, attempt);
      O.InvCounts(settings, before);
      O.NextKeeps(settings, before, step);
      O.StepSpends(settings, before, step);
      forall id | id != item.id && IsPending(before.pending, id)
        ensures IsPending(O.Next(settings, before, step).pending, id)
      {
        OthersStay(settings, before, step, item.id, id);
      }
      if attempt.Sent? {
        var removed := RemoveBufferItem(item.id);
        if removed {
          replayedSuccesses := replayedSuccesses + 1;
        }
      } else {
        replayedFailures := replayedFailures + 1;
        ScheduleRetry(item.id, attempt.error);
      }
    }

    /** Deals with one item of the pass. */
    method ReplayOne(item: O.Item, answer: Answer) returns (attempt: Attempt)
      requires Valid() && IsPending(buffered, item.id)
      modifies this`buffered, this`file, this`dropped, this`replayedSuccesses, this`replayedFailures, breaker
      ensures Valid() && View() == O.Next(settings, old(View()), StepFor(item, attempt))
      ensures (Circuit(), attempt) == Meets(Guard(), old(Circuit()), now, answer)
      ensures replayedSuccesses == old(replayedSuccesses) + if attempt.Sent? then 1 else 0
      ensures replayedFailures == old(replayedFailures) + if attempt.Sent? then 0 else 1
      ensures O.Potential(settings, buffered) + 1 <= O.Potential(settings, old(buffered))
      ensures forall id :: id != item.id && IsPending(old(buffered), id) ==> IsPending(buffered, id)
    {
      hide O.Inv, O.Next, O.Potential, Meets, StepFor, IsPending;
      attempt := TryToSend(answer);
      Settle(item, attempt);
    }

    /** One replay pass. It works on a snapshot of due items, oldest first, sends each through the
        breaker and stops at the first one the circuit blocks. `answers` is what comes back for
        those that get out. `attempts` is what the items met, and `steps` the run of outbox sections
        the pass amounts to; every one of them uses up budget. */
    method ReplayBufferedReceipts(limit: int, answers: seq<Answer>)
      returns (summary: Summary, ghost attempts: seq<Attempt>, ghost steps: seq<O.Step>)
      requires Valid()
      modifies this`buffered, this`file, this`dropped, this`replayedSuccesses, this`replayedFailures, breaker
      ensures Valid() && View() == O.Run(settings, old(View()), steps)
      ensures Follows(Batch(old(buffered), now, limit), attempts, steps)
      ensures Encounters(Guard(), old(Circuit()), now, answers, attempts, Circuit())
      ensures summary.replayed + summary.failed + summary.blocked == |steps|
      ensures replayedSuccesses == old(replayedSuccesses) + summary.replayed
      ensures replayedFailures == old(replayedFailures) + summary.failed + summary.blocked
      ensures summary.blocked <= 1 && summary.remaining == |buffered|
      ensures O.Potential(settings, buffered) + |steps| <= O.Potential(settings, old(buffered))
    {
      hide O.Inv, O.Next, O.Run, O.Potential, Batch, IsPending, StepFor, Handles, Follows, StillPending, Distinct, Meets,
           Encounters, Circuit, Guard, AnswerAt;
      ghost var before := View();
      ghost var circuit := Circuit();
      var batch := Batch(buffered, now, limit);
      var replayed, failed, blocked := 0, 0, 0;
      attempts, steps := [], [];
      BatchPending(buffered, now, limit);
      DistinctWhenValid(settings, before);
      BatchDistinct(buffered, now, limit);
      HandlesNothing(batch);
      EncountersNothing(Guard(), circuit, now, answers);
      O.RunNothing(settings, before);
      var i := 0;
      while i < |batch| && blocked == 0
        invariant 0 <= i <= |batch| && replayed + failed + blocked == i
        invariant Valid() && View() == O.Run(settings, before, steps)
        invariant Handles(batch, attempts, steps, i) && i == |attempts|
        invariant blocked == if i > 0 && attempts[i - 1].Blocked? then 1 else 0
        invariant StillPending(buffered, batch, i)
        invariant Encounters(Guard(), circuit, now, answers, attempts, Circuit())
        invariant replayedSuccesses == before.replayed + replayed
        invariant replayedFailures == old(replayedFailures) + failed + blocked
        invariant O.Potential(settings, buffered) + i <= O.Potential(settings, before.pending)
      {
        ghost var items, mid := buffered, Circuit();
        FirstPending(items, batch, i);
        var attempt := ReplayOne(batch[i], AnswerAt(answers, i));
        StillPendingAfter(items, buffered, batch, i);
        EncountersOneMore(Guard(), circuit, now, answers, attempts, mid, Circuit(), attempt);
        ghost var step := StepFor(batch[i], attempt);
        O.RunOneMore(settings, before, steps, step);
        HandlesOneMore(batch, attempts, steps, i, attempt);
        match attempt {
          case Sent => replayed := replayed + 1;
          case Blocked(_) => blocked := blocked + 1;
          case _ => failed := failed + 1;
        }
        attempts, steps := attempts + [attempt], steps + [step];
        i := i + 1;
      }
      HandlesAll(batch, attempts, steps, i);
      summary := Summary(replayed, failed, blocked, |buffered|);
    }
  }

  // ---------------------------------------------------------------------------------------
  // What the items of a pass meet
  // ---------------------------------------------------------------------------------------

  function AnswerAt(answers: seq<Answer>, i: nat): Answer {
    if i < |answers| then answers[i] else Unreachable("")
  }

  /** An answer on its own. */
  function Direct(answer: Answer): Attempt {
    match answer
    case Accepted => Sent
    case RefusedByLedger => Attempt.RefusedByLedger("refused")
    case Unreachable(error) => Attempt.Failed(error)
  }

  /** Without a breaker an item meets the answer. With one it may be blocked instead, and the answer
      is recorded unless it is a refusal. */
  function Meets(g: Option<B.Limits>, b: B.Circuit, now: Time, answer: Answer): (B.Circuit, Attempt) {
    if g.None? then (b, Direct(answer))
    else
      var a := B.Admit(g.value, b, now);
      if !a.admitted then (a.circuit, Blocked("circuit_open"))
      else
        var b' := match answer
                  case Accepted => B.OnSuccess(g.value, a.circuit)
                  case RefusedByLedger => a.circuit
                  case Unreachable(_) => B.OnFailure(g.value, a.circuit, now);
        (b', Direct(answer))
  }

  /** The attempts are what a breaker that goes from `b` to `b'` makes of the answers. */
  ghost predicate Encounters(g: Option<B.Limits>, b: B.Circuit, now: Time, answers: seq<Answer>, attempts: seq<Attempt>,
                             b': B.Circuit)
    decreases |attempts|
  {
    if attempts == [] then b' == b
    else
      var n := |attempts| - 1;
      exists mid :: Encounters(g, b, now, answers, attempts[..n], mid)
                    && Meets(g, mid, now, AnswerAt(answers, n)) == (b', attempts[n])
  }

  lemma EncountersNothing(g: Option<B.Limits>, b: B.Circuit, now: Time, answers: seq<Answer>)
    ensures Encounters(g, b, now, answers, [], b)
  {
  }

  lemma EncountersOneMore(g: Option<B.Limits>, b: B.Circuit, now: Time, answers: seq<Answer>, attempts: seq<Attempt>,
                          mid: B.Circuit, b': B.Circuit, attempt: Attempt)
    requires Encounters(g, b, now, answers, attempts, mid)
    requires Meets(g, mid, now, AnswerAt(answers, |attempts|)) == (b', attempt)
    ensures Encounters(g, b, now, answers, attempts + [attempt], b')
  {
    hide Meets;
    assert (attempts + [attempt])[..|attempts|] == attempts;
  }

  function StepFor(item: O.Item, a: Attempt): O.Step {
    match a
    case Sent => O.Deliver(item.id)
    case Blocked(error) => O.Miss(item.id, error)
    case RefusedByLedger(error) => O.Miss(item.id, error)
    case Failed(error) => O.Miss(item.id, error)
  }

  /** `steps` has dealt with the first `n` items of `batch`, none but the last of them blocked. */
  predicate Handles(batch: seq<O.Item>, attempts: seq<Attempt>, steps: seq<O.Step>, n: nat) {
    && |steps| == |attempts| == n <= |batch|
    && (forall i :: 0 <= i < n ==> steps[i] == StepFor(batch[i], attempts[i]))
    && (forall i :: 0 <= i < n - 1 ==> !attempts[i].Blocked?)
  }

  lemma HandlesNothing(batch: seq<O.Item>)
    ensures Handles(batch, [], [], 0)
  {
  }

  lemma HandlesOneMore(batch: seq<O.Item>, attempts: seq<Attempt>, steps: seq<O.Step>, n: nat, attempt: Attempt)
    requires Handles(batch, attempts, steps, n) && n < |batch|
    requires n > 0 ==> !attempts[n - 1].Blocked?
    ensures Handles(batch, attempts + [attempt], steps + [StepFor(batch[n], attempt)], n + 1)
  {
  }

  lemma HandlesAll(batch: seq<O.Item>, attempts: seq<Attempt>, steps: seq<O.Step>, n: nat)
    requires Handles(batch, attempts, steps, n)
    requires n < |batch| ==> n > 0 && attempts[n - 1].Blocked?
    ensures |steps| == n && Follows(batch, attempts, steps)
  {
  }

  /** `steps` deals with the items of `batch` in order and ends early only at a blocked one. */
  predicate Follows(batch: seq<O.Item>, attempts: seq<Attempt>, steps: seq<O.Step>) {
    && Handles(batch, attempts, steps, |steps|)
    && (|steps| < |batch| ==> steps != [] && attempts[|steps| - 1].Blocked?)
  }

  predicate IsPending(items: seq<O.Item>, id: nat) { O.IndexOf(items, id) < |items| }

  lemma {:induction false} PendingIff(items: seq<O.Item>, id: nat)
    ensures IsPending(items, id) <==> exists i :: 0 <= i < |items| && items[i].id == id
  {
  }

  /** The items of the batch from the `n`th on are still in the queue. */
  ghost predicate StillPending(items: seq<O.Item>, batch: seq<O.Item>, n: nat) {
    forall k :: n <= k < |batch| ==> IsPending(items, batch[k].id)
  }

  lemma FirstPending(items: seq<O.Item>, batch: seq<O.Item>, n: nat)
    requires StillPending(items, batch, n) && n < |batch|
    ensures IsPending(items, batch[n].id)
  {
  }

  lemma StillPendingAfter(items: seq<O.Item>, after: seq<O.Item>, batch: seq<O.Item>, n: nat)
    requires n < |batch| && StillPending(items, batch, n) && Distinct(batch)
    requires forall id :: id != batch[n].id && IsPending(items, id) ==> IsPending(after, id)
    ensures StillPending(after, batch, n + 1)
  {
    hide IsPending;
  }

  lemma BatchPending(items: seq<O.Item>, now: Time, limit: int)
    ensures StillPending(items, Batch(items, now, limit), 0)
  {
    forall k | 0 <= k < |Batch(items, now, limit)| ensures IsPending(items, Batch(items, now, limit)[k].id) {
      var x := Batch(items, now, limit)[k];
      BatchIsOldestDue(items, now, limit, x, x);
      PendingIff(items, x.id);
    }
  }

  /** No two items carry the same id. */
  predicate Distinct(items: seq<O.Item>) { forall i, j :: 0 <= i < j < |items| ==> items[i].id != items[j].id }

  lemma {:induction false} DueDistinct(items: seq<O.Item>, now: Time)
    requires Distinct(items)
    ensures Distinct(Due(items, now))
  {
    if items == [] {
    } else {
      var n := |items| - 1;
      DueDistinct(items[..n], now);
      forall x | x in Due(items[..n], now) ensures x.id != items[n].id { assert x in items[..n]; }
    }
  }

  lemma {:induction false} InsertDistinct(items: seq<O.Item>, x: O.Item)
    requires Distinct(items) && forall y :: y in items ==> y.id != x.id
    ensures Distinct(Insert(items, x))
  {
    if !(items == [] || items[|items| - 1].queuedAt <= x.queuedAt) {
      var n := |items| - 1;
      InsertDistinct(items[..n], x);
      forall y | y in Insert(items[..n], x) ensures y.id != items[n].id {
        if y != x { assert y in items[..n]; }
      }
    }
  }

  lemma {:induction false} SortDistinct(items: seq<O.Item>)
    requires Distinct(items)
    ensures Distinct(ByQueuedAt(items))
  {
    if items == [] {
    } else {
      var n := |items| - 1;
      SortDistinct(items[..n]);
      forall y | y in ByQueuedAt(items[..n]) ensures y.id != items[n].id { assert y in items[..n]; }
      InsertDistinct(ByQueuedAt(items[..n]), items[n]);
    }
  }

  lemma DistinctWhenValid(c: O.Settings, s: O.Box)
    requires O.Inv(c, s)
    ensures Distinct(s.pending)
  {
  }

  lemma BatchDistinct(items: seq<O.Item>, now: Time, limit: int)
    requires Distinct(items)
    ensures Distinct(Batch(items, now, limit))
  {
    DueDistinct(items, now);
    SortDistinct(Due(items, now));
  }

  /** Dealing with one item leaves the others in the queue. */
  lemma OthersStay(c: O.Settings, s: O.Box, step: O.Step, id: nat, other: nat)
    requires step == O.Deliver(id) || (step.Miss? && step.id == id)
    requires id != other && IsPending(s.pending, other)
    ensures IsPending(O.Next(c, s, step).pending, other)
  {
    hide O.RetryDelay, O.Saved;
    var i, k := O.IndexOf(s.pending, id), O.IndexOf(s.pending, other);
    var after := O.Next(c, s, step).pending;
    PendingIff(after, other);
    if after != s.pending {
      if |after| < |s.pending| {
        assert after[if k < i then k else k - 1] == s.pending[k];
      } else {
        assert after[k] == s.pending[k];
      }
    }
  }

  // ---------------------------------------------------------------------------------------
  // Replays that the ledger refuses or the circuit blocks
  // ---------------------------------------------------------------------------------------

  /** The client promises never to retry a refused receipt. On replay it keeps this promise for a
      pending item exactly when the item's retries are used up: with one left, a refused item stays
      where it is, with one retry more; otherwise it is dropped, and nothing else changes. */
  lemma RefusedReplayIff(c: O.Settings, now: Time, nextId: nat, steps: seq<O.Step>, i: nat, error: string)
    requires i < |O.Run(c, O.Boot(c, now, O.Missing, nextId), steps).pending|
    ensures var s := O.Run(c, O.Boot(c, now, O.Missing, nextId), steps);
            var item := s.pending[i];
            var s' := O.Next(c, s, StepFor(item, Attempt.RefusedByLedger(error)));
            && (IsPending(s'.pending, item.id) <==> item.retries < Max(0, c.maxRetries))
            && (if item.retries < Max(0, c.maxRetries) then
                  && |s'.pending| == |s.pending| && s'.pending[i].parcel == item.parcel
                  && s'.pending[i].retries == item.retries + 1 && s'.pending == s.pending[i := s'.pending[i]]
                  && s'.dropped == s.dropped
                else s'.pending == O.Without(s.pending, i) && s'.dropped == s.dropped + 1)
            && s'.replayed == s.replayed
  {
    hide O.Run, O.RetryDelay, O.Saved;
    O.EmptyBoxInv(c, now, nextId);
    O.RunKeeps(c, O.Boot(c, now, O.Missing, nextId), steps);
    var s := O.Run(c, O.Boot(c, now, O.Missing, nextId), steps);
    var s' := O.Next(c, s, StepFor(s.pending[i], Attempt.RefusedByLedger(error)));
    PendingIff(s'.pending, s.pending[i].id);
  }

  /** Every replay in the run is of the item a pass would take first at that moment, and meets
      `attempt`. */
  ghost predicate OnlyMeets(c: O.Settings, s: O.Box, steps: seq<O.Step>, limit: int, attempt: Attempt) {
    forall k :: 0 <= k < |steps| && !steps[k].Tick? && !steps[k].GiveUp? ==>
      var r := O.Run(c, s, steps[..k]);
      Batch(r.pending, r.now, limit) != [] && steps[k] == StepFor(Batch(r.pending, r.now, limit)[0], attempt)
  }

  lemma OnlyMeetsMore(c: O.Settings, s: O.Box, steps: seq<O.Step>, limit: int, attempt: Attempt, step: O.Step)
    requires OnlyMeets(c, s, steps, limit, attempt)
    requires step.Tick? || step.GiveUp? || (var r := O.Run(c, s, steps);
             Batch(r.pending, r.now, limit) != [] && step == StepFor(Batch(r.pending, r.now, limit)[0], attempt))
    ensures OnlyMeets(c, s, steps + [step], limit, attempt)
  {
    hide O.Run, Batch, StepFor;
    var more := steps + [step];
    forall k | 0 <= k < |more| && !more[k].Tick? && !more[k].GiveUp?
      ensures var r := O.Run(c, s, more[..k]);
              Batch(r.pending, r.now, limit) != [] && more[k] == StepFor(Batch(r.pending, r.now, limit)[0], attempt)
    {
      if k < |steps| {
        assert more[..k] == steps[..k];
      } else {
        assert more[..k] == steps;
      }
    }
  }

  lemma OneDue(item: O.Item, now: Time, limit: int)
    requires item.nextRetryAt <= now
    ensures Batch([item], now, limit) == [item]
  {
    assert [item][..0] == [];
    assert Due([item], now) == [item];
    assert ByQueuedAt([item]) == [item];
  }

  /** A box that holds one item, missed `n` times. */
  predicate OneLeft(c: O.Settings, s: O.Box, p: O.Parcel, id: nat, n: nat) {
    && |s.pending| == 1 && s.pending[0].id == id && s.pending[0].parcel == p && s.pending[0].retries == n
    && s.replayed == 0 && s.dropped == 0
  }

  lemma MissOnce(c: O.Settings, s: O.Box, p: O.Parcel, id: nat, n: nat, attempt: Attempt)
    requires OneLeft(c, s, p, id, n) && !attempt.Sent?
    ensures var s' := O.Next(c, s, StepFor(s.pending[0], attempt));
            if n < Max(0, c.maxRetries) then OneLeft(c, s', p, id, n + 1)
            else s'.pending == [] && s'.dropped == 1 && s'.replayed == 0
  {
    hide O.RetryDelay, O.Saved;
    assert O.IndexOf(s.pending, id) == 0;
  }

  lemma Queue(c: O.Settings, now: Time, nextId: nat, p: O.Parcel)
    requires O.PhaseMayBuffer(c, p.phase)
    ensures OneLeft(c, O.Next(c, O.Boot(c, now, O.Missing, nextId), O.GiveUp(p, "", now)), p, nextId, 0)
  {
    hide O.PhaseMayBuffer, O.Saved;
  }

  lemma MissesMore(c: O.Settings, s: O.Box, steps: seq<O.Step>, step: O.Step, id: nat)
    ensures O.MissesOf(c, s, steps + [step], id) ==
              O.MissesOf(c, s, steps, id) + if O.Misses(O.Run(c, s, steps), step, id) then 1 else 0
  {
    assert (steps + [step])[..|steps|] == steps;
  }

  lemma ResolvesToMiss(c: O.Settings, s: O.Box, p: O.Parcel, id: nat, n: nat, attempt: Attempt)
    requires OneLeft(c, s, p, id, n) && !attempt.Sent?
    ensures O.Misses(s, StepFor(s.pending[0], attempt), id)
  {
    assert O.IndexOf(s.pending, id) == 0;
  }

  /** A queued receipt that meets the same obstacle whenever it is due. */
  lemma {:induction false} MissedSoFar(c: O.Settings, now: Time, nextId: nat, p: O.Parcel, limit: int, attempt: Attempt,
                                       n: nat) returns (steps: seq<O.Step>)
    requires O.PhaseMayBuffer(c, p.phase) && !attempt.Sent? && n <= Max(0, c.maxRetries)
    ensures var s := O.Boot(c, now, O.Missing, nextId);
            && OneLeft(c, O.Run(c, s, steps), p, nextId, n)
            && O.Run(c, s, steps).pending[0].nextRetryAt <= O.Run(c, s, steps).now
            && O.MissesOf(c, s, steps, nextId) == n && OnlyMeets(c, s, steps, limit, attempt)
  {
    var s := O.Boot(c, now, O.Missing, nextId);
    var before, step;
    if n == 0 {
      before, step := [], O.GiveUp(p, "", now);
      O.RunNothing(c, s);
      Queue(c, now, nextId, p);
    } else {
      before := MissedSoFar(c, now, nextId, p, limit, attempt, n - 1);
      var r := O.Run(c, s, before);
      step := StepFor(r.pending[0], attempt);
      hide O.Run, O.Boot, O.MissesOf, O.Next, OnlyMeets, Batch;
      assert r.pending == [r.pending[0]];
      OneDue(r.pending[0], r.now, limit);
      MissOnce(c, r, p, nextId, n - 1, attempt);
      ResolvesToMiss(c, r, p, nextId, n - 1, attempt);
    }
    hide O.Run, O.Boot, O.Next, OnlyMeets, Batch;
    steps := Wait(c, s, p, nextId, n, before, step, limit, attempt);
  }

  /** Takes one more step and then waits until the item is due. */
  lemma Wait(c: O.Settings, s: O.Box, p: O.Parcel, id: nat, n: nat, before: seq<O.Step>, step: O.Step, limit: int,
             attempt: Attempt) returns (steps: seq<O.Step>)
    requires OneLeft(c, O.Next(c, O.Run(c, s, before), step), p, id, n) && OnlyMeets(c, s, before, limit, attempt)
    requires step.Tick? || step.GiveUp? || (var r := O.Run(c, s, before);
             Batch(r.pending, r.now, limit) != [] && step == StepFor(Batch(r.pending, r.now, limit)[0], attempt))
    ensures OneLeft(c, O.Run(c, s, steps), p, id, n)
    ensures O.Run(c, s, steps).pending[0].nextRetryAt <= O.Run(c, s, steps).now
    ensures O.MissesOf(c, s, steps, id) ==
              O.MissesOf(c, s, before, id) + if O.Misses(O.Run(c, s, before), step, id) then 1 else 0
    ensures OnlyMeets(c, s, steps, limit, attempt)
  {
    hide O.Run, OnlyMeets, Batch, O.MissesOf;
    O.RunOneMore(c, s, before, step);
    OnlyMeetsMore(c, s, before, limit, attempt, step);
    MissesMore(c, s, before, step, id);
    var after := before + [step];
    var tick := O.Tick(O.Run(c, s, after).pending[0].nextRetryAt);
    O.RunOneMore(c, s, after, tick);
    OnlyMeetsMore(c, s, after, limit, attempt, tick);
    MissesMore(c, s, after, tick, id);
    steps := after + [tick];
  }

  /** A receipt that may wait and whose every replay meets the same obstacle, be it a refusal, an
      outage or an open circuit, is tried `maxRetries + 1` times, each time being the due item a
      pass takes first, and is then dropped without having been delivered. */
  lemma TriedToTheEnd(c: O.Settings, now: Time, nextId: nat, p: O.Parcel, limit: int, attempt: Attempt)
    returns (steps: seq<O.Step>)
    requires O.PhaseMayBuffer(c, p.phase) && !attempt.Sent?
    ensures var s := O.Boot(c, now, O.Missing, nextId);
            var s' := O.Run(c, s, steps);
            && O.MissesOf(c, s, steps, nextId) == Max(0, c.maxRetries) + 1
            && OnlyMeets(c, s, steps, limit, attempt)
            && s'.pending == [] && s'.queued == 1 && s'.dropped == 1 && s'.replayed == 0
  {
    var n := Max(0, c.maxRetries);
    var s := O.Boot(c, now, O.Missing, nextId);
    var before := MissedSoFar(c, now, nextId, p, limit, attempt, n);
    var r := O.Run(c, s, before);
    var step := StepFor(r.pending[0], attempt);
    O.BootCounts(c, now, O.Missing, nextId);
    hide O.Run, O.Boot, O.MissesOf, OnlyMeets, Batch;
    assert r.pending == [r.pending[0]];
    OneDue(r.pending[0], r.now, limit);
    MissOnce(c, r, p, nextId, n, attempt);
    ResolvesToMiss(c, r, p, nextId, n, attempt);
    O.RunOneMore(c, s, before, step);
    OnlyMeetsMore(c, s, before, limit, attempt, step);
    MissesMore(c, s, before, step, nextId);
    steps := before + [step];
    O.RunKeeps(c, s, steps);
  }

  /** A breaker stuck in a half-open period blocks every replay, whatever the ledger would answer, and
      stays stuck. */
  lemma StuckBlocks(c: B.Limits, b: B.Circuit, now: Time, answer: Answer)
    requires b.mode.HalfOpen? && b.probes >= c.halfOpenMaxCalls
    ensures var (b', attempt) := Meets(Some(c), b, now, answer);
            attempt == Blocked("circuit_open") && b'.mode.HalfOpen? && b'.probes == b.probes
  {
  }

  /** So refusals can cost receipts that were never sent: behind a breaker they have wedged, a queued
      receipt is blocked `maxRetries + 1` times and dropped, although the ledger would accept it. */
  lemma DroppedUnsent(c: O.Settings, limits: B.Limits, now: Time, nextId: nat, p: O.Parcel, limit: int)
    returns (es: seq<B.Event>, steps: seq<O.Step>)
    requires O.PhaseMayBuffer(c, p.phase)
    ensures forall fs: seq<B.Event>, at: Time, answer: Answer :: B.ManualReset !in fs ==>
              Meets(Some(limits), B.Run(limits, B.Init(now), es + fs).circuit, at, answer).1 == Blocked("circuit_open")
    ensures var s := O.Boot(c, now, O.Missing, nextId);
            && OnlyMeets(c, s, steps, limit, Blocked("circuit_open"))
            && O.Run(c, s, steps).pending == [] && O.Run(c, s, steps).dropped == 1 && O.Run(c, s, steps).replayed == 0
  {
    es := B.RefusalsWedge(limits, now);
    forall fs: seq<B.Event>, at: Time, answer: Answer | B.ManualReset !in fs
      ensures Meets(Some(limits), B.Run(limits, B.Init(now), es + fs).circuit, at, answer).1 == Blocked("circuit_open")
    {
      assert B.Stuck(limits, B.Run(limits, B.Init(now), es + fs));
      StuckBlocks(limits, B.Run(limits, B.Init(now), es + fs).circuit, at, answer);
    }
    steps := TriedToTheEnd(c, now, nextId, p, limit, Blocked("circuit_open"));
  }
}
