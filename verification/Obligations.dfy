/** Listing a principal's open obligations: a batched, capped and cursor-paged query over the
    receipt ledger, against the one-line definition of an open obligation. */
module Obligations {
  import opened Domain
  import opened Ledger

  // ---------------------------------------------------------------------------------------
  // The query
  // ---------------------------------------------------------------------------------------

  /** The hard cap on rows fetched for one page. */
  const CANDIDATE_CAP: int := 1000

  /** The receipt obliges `p`, and is newer than the cursor. */
  predicate IsCandidate(r: Receipt, p: Principal, since: Option<Time>) {
    r.says.to == p && CreatesObligation(r.says.rtype) && (since.Some? ==> r.createdAt > since.value)
  }

  function Candidates(l: Rows, p: Principal, since: Option<Time>): (m: Rows)
    ensures forall r :: r in m <==> r in l && IsCandidate(r, p, since)
  {
    if l == [] then []
    else
      var n := |l| - 1;
      Candidates(l[..n], p, since) + (if IsCandidate(l[n], p, since) then [l[n]] else [])
  }

  /** The receipts among `rows` that no terminal receipt of the ledger names. */
  function StillOpen(l: Rows, rows: Rows): (open: Rows)
    ensures forall r :: r in open <==> r in rows && !HasTerminator(l, r.id)
  {
    if rows == [] then []
    else (if HasTerminator(l, rows[0].id) then [] else [rows[0]]) + StillOpen(l, rows[1..])
  }

  /** The first `limit` of them. */
  function FirstOpen(l: Rows, rows: Rows, limit: nat): (open: Rows)
    ensures |open| <= limit
  {
    if rows == [] || limit == 0 then []
    else if HasTerminator(l, rows[0].id) then FirstOpen(l, rows[1..], limit)
    else [rows[0]] + FirstOpen(l, rows[1..], limit - 1)
  }

  /** The time of the cursor receipt; a cursor nobody knows is ignored. */
  function SinceTime(l: Rows, cursor: Option<ReceiptId>): Option<Time> {
    if cursor.Some? && cursor.value < |l| then Some(l[cursor.value].createdAt) else None
  }

  /** `Rejected` stands for the exceptions a limit below one runs into. */
  datatype Listing = Page(open: Rows, next: Option<ReceiptId>) | Rejected

  /** The page cut from the candidates found behind the cursor. */
  function PageOf(l: Rows, found: Rows, limit: nat): Listing {
    if found == [] then Page([], None)
    else if limit == 0 then Rejected
    else
      var cap := Min(3 * limit, CANDIDATE_CAP);
      var rows := if |found| > cap then found[..cap] else found;
      var open := FirstOpen(l, rows, limit);
      Page(open, if |open| == limit then Some(open[limit - 1].id)
                 else if |found| > cap then Some(rows[cap - 1].id)
                 else None)
  }

  function ListOpen(l: Rows, p: Principal, cursor: Option<ReceiptId>, limit: int): Listing {
    if limit < 0 then Rejected else PageOf(l, Candidates(l, p, SinceTime(l, cursor)), limit)
  }

  // ---------------------------------------------------------------------------------------
  // The batched implementation
  // ---------------------------------------------------------------------------------------

  /** The ordered, limited query. */
  method Fetch(l: Rows, p: Principal, since: Option<Time>, count: nat) returns (rows: Rows)
    ensures var found := Candidates(l, p, since);
            rows == if |found| <= count then found else found[..count]
  {
    rows := [];
    var i := 0;
    while i < |l| && |rows| < count
      invariant 0 <= i <= |l| && |rows| <= count
      invariant rows == Candidates(l[..i], p, since)
    {
      assert l[..i + 1][..i] == l[..i];
      if IsCandidate(l[i], p, since) {
        rows := rows + [l[i]];
      }
      i := i + 1;
    }
    CandidatesPrefix(l[..i], l, p, since);
    assert l[..|l|] == l;
  }

  /** One pass over the parents of all terminal receipts, instead of one query per candidate. */
  method TerminatedAmong(l: Rows, ids: set<ReceiptId>) returns (terminated: set<ReceiptId>)
    ensures forall id :: id in terminated <==> id in ids && HasTerminator(l, id)
  {
    terminated := {};
    for i := 0 to |l|
      invariant forall id :: id in terminated <==> id in ids && NamedBefore(l, i, id)
    {
      if IsTerminalType(l[i].says.rtype) {
        var parents := l[i].says.parents;
        for j := 0 to |parents|
          invariant forall id :: id in terminated <==> id in ids && (NamedBefore(l, i, id) || id in parents[..j])
        {
          if parents[j] in ids {
            terminated := terminated + {parents[j]};
          }
        }
        assert parents[..|parents|] == parents;
      }
      assert forall id :: NamedBefore(l, i + 1, id) <==>
                            NamedBefore(l, i, id) || (IsTerminalType(l[i].says.rtype) && id in l[i].says.parents);
    }
  }

  /** A terminal receipt among the first `n` names `id`. */
  predicate NamedBefore(l: Rows, n: nat, id: ReceiptId)
    requires n <= |l|
  {
    exists i :: 0 <= i < n && IsTerminalType(l[i].says.rtype) && id in l[i].says.parents
  }

  /** Keeps the rows that are not terminated and stops when there are enough. */
  method Scan(l: Rows, rows: Rows, terminated: set<ReceiptId>, limit: nat) returns (open: Rows)
    requires forall row :: row in rows ==> (row.id in terminated <==> HasTerminator(l, row.id))
    ensures open == FirstOpen(l, rows, limit)
  {
    hide HasTerminator;
    open := [];
    var i := 0;
    while i < |rows| && |open| < limit
      invariant 0 <= i <= |rows| && |open| <= limit
      invariant FirstOpen(l, rows, limit) == open + FirstOpen(l, rows[i..], limit - |open|)
    {
      assert rows[i..][0] == rows[i] && rows[i..][1..] == rows[i + 1..];
      if rows[i].id !in terminated {
        open := open + [rows[i]];
      }
      i := i + 1;
    }
  }

  /** The page as the service computes it agrees with the per-obligation question, in spite of the
      batch, the cap and the early end of the scan. */
  method ListOpenObligations(l: Rows, p: Principal, cursor: Option<ReceiptId>, limit: int) returns (r: Listing)
    ensures r == ListOpen(l, p, cursor, limit)
  {
    hide HasTerminator, Candidates, SinceTime, FirstOpen;
    var cap := Min(limit * 3, CANDIDATE_CAP);
    if cap + 1 < 0 {
      return Rejected;
    }
    var rows := Fetch(l, p, SinceTime(l, cursor), cap + 1);
    if rows == [] {
      return Page([], None);
    }
    var more := |rows| > cap;
    ghost var found := Candidates(l, p, SinceTime(l, cursor));
    if more {
      assert found[..cap + 1][..cap] == found[..cap];
      rows := rows[..cap];
    }
    var terminated := TerminatedAmong(l, set row | row in rows :: row.id);
    var open := Scan(l, rows, terminated, limit);
    if |open| >= limit {
      if open == [] {
        return Rejected;
      }
      return Page(open, Some(open[|open| - 1].id));
    }
    return Page(open, if more && rows != [] then Some(rows[|rows| - 1].id) else None);
  }

  // ---------------------------------------------------------------------------------------
  // Order
  // ---------------------------------------------------------------------------------------

  /** Receipts are numbered by their place in the ledger. */
  predicate Numbered(l: Rows) { forall i :: 0 <= i < |l| ==> l[i].id == i }

  /** The clock never runs backwards. */
  predicate Chronological(l: Rows) { forall i, j :: 0 <= i < j < |l| ==> l[i].createdAt <= l[j].createdAt }

  /** No two obligations of `p` share a creation time. */
  predicate Distinct(l: Rows, p: Principal) {
    forall i, j :: 0 <= i < j < |l| && IsCandidate(l[i], p, None) && IsCandidate(l[j], p, None) ==>
      l[i].createdAt < l[j].createdAt
  }

  /** All obligations ever addressed to `p`. */
  function Obligations(l: Rows, p: Principal): Rows { Candidates(l, p, None) }

  lemma {:induction false} CandidatesPrefix(l: Rows, l': Rows, p: Principal, since: Option<Time>)
    requires l <= l'
    ensures Candidates(l, p, since) <= Candidates(l', p, since)
  {
    if |l| < |l'| {
      CandidatesPrefix(l, l'[..|l'| - 1], p, since);
    } else {
      assert l == l';
    }
  }

  lemma {:induction false} ObligationsDistinct(l: Rows, p: Principal)
    requires Numbered(l) && Distinct(l, p)
    ensures var c := Obligations(l, p);
            forall i, j :: 0 <= i < j < |c| ==> c[i].createdAt < c[j].createdAt && c[i].id < c[j].id
  {
    if l == [] {
    } else {
      var n := |l| - 1;
      ObligationsDistinct(l[..n], p);
      forall r | r in Obligations(l[..n], p) && IsCandidate(l[n], p, None)
        ensures r.createdAt < l[n].createdAt && r.id < n
      {
        var i :| 0 <= i < n && l[i] == r;
      }
    }
  }

  lemma {:induction false} ObligationsChronological(l: Rows, p: Principal)
    requires Chronological(l)
    ensures Chronological(Obligations(l, p))
  {
    if l == [] {
    } else {
      var n := |l| - 1;
      ObligationsChronological(l[..n], p);
      forall r | r in Obligations(l[..n], p) ensures r.createdAt <= l[n].createdAt {
        var i :| 0 <= i < n && l[i] == r;
      }
    }
  }

  function Newer(rows: Rows, at: Time): Rows {
    if rows == [] then []
    else
      var n := |rows| - 1;
      Newer(rows[..n], at) + (if rows[n].createdAt > at then [rows[n]] else [])
  }

  lemma {:induction false} FetchIsNewer(l: Rows, p: Principal, at: Time)
    ensures Candidates(l, p, Some(at)) == Newer(Obligations(l, p), at)
  {
    if l == [] {
    } else {
      var n := |l| - 1;
      FetchIsNewer(l[..n], p, at);
      var d := Obligations(l[..n], p);
      assert (d + [l[n]])[..|d|] == d;
      assert Obligations(l, p) == if IsCandidate(l[n], p, None) then d + [l[n]] else d;
    }
  }

  lemma {:induction false} NewerIsTail(rows: Rows, k: nat, at: Time)
    requires k <= |rows|
    requires forall i :: 0 <= i < k ==> rows[i].createdAt <= at
    requires forall i :: k <= i < |rows| ==> rows[i].createdAt > at
    ensures Newer(rows, at) == rows[k..]
  {
    if rows == [] {
    } else {
      var n := |rows| - 1;
      NewerIsTail(rows[..n], if k <= n then k else n, at);
      if k <= n {
        assert rows[k..] == rows[..n][k..] + [rows[n]];
      }
    }
  }

  /** A cursor time that splits the obligations splits the query. */
  lemma CutAt(l: Rows, p: Principal, k: nat, at: Time)
    requires k <= |Obligations(l, p)|
    requires forall i :: 0 <= i < k ==> Obligations(l, p)[i].createdAt <= at
    requires forall i :: k <= i < |Obligations(l, p)| ==> Obligations(l, p)[i].createdAt > at
    ensures Candidates(l, p, Some(at)) == Obligations(l, p)[k..]
  {
    hide Candidates, Newer;
    FetchIsNewer(l, p, at);
    NewerIsTail(Obligations(l, p), k, at);
  }

  /** Resuming after an obligation continues exactly with the next one if and only if no later
      obligation of the same principal carries the same time. */
  lemma ResumesExactlyIff(l: Rows, p: Principal, k: nat)
    requires Numbered(l) && Chronological(l) && k < |Obligations(l, p)|
    ensures var c := Obligations(l, p);
            Candidates(l, p, SinceTime(l, Some(c[k].id))) == c[k + 1..] <==>
            forall j :: k < j < |c| ==> c[j].createdAt != c[k].createdAt
  {
    var c := Obligations(l, p);
    var at := c[k].createdAt;
    assert c[k] in l;
    assert SinceTime(l, Some(c[k].id)) == Some(at);
    ObligationsChronological(l, p);
    if forall j :: k < j < |c| ==> c[j].createdAt != at {
      CutAt(l, p, k + 1, at);
    } else {
      var j :| k < j < |c| && c[j].createdAt == at;
      assert c[k + 1..][j - (k + 1)] == c[j];
      assert c[j] !in Candidates(l, p, Some(at));
    }
  }

  // ---------------------------------------------------------------------------------------
  // One page
  // ---------------------------------------------------------------------------------------

  /** The cursor stands right after the first `k` obligations. */
  predicate At(l: Rows, p: Principal, cursor: Option<ReceiptId>, k: nat) {
    && k <= |Obligations(l, p)|
    && (if cursor.None? then k == 0 else k > 0 && Obligations(l, p)[k - 1].id == cursor.value)
  }

  lemma FetchedAt(l: Rows, p: Principal, cursor: Option<ReceiptId>, k: nat)
    requires Numbered(l) && Distinct(l, p) && At(l, p, cursor, k)
    ensures Candidates(l, p, SinceTime(l, cursor)) == Obligations(l, p)[k..]
  {
    var c := Obligations(l, p);
    if cursor.Some? {
      ObligationsDistinct(l, p);
      assert c[k - 1] in l;
      CutAt(l, p, k, c[k - 1].createdAt);
    }
  }

  /** How many rows the scan looks at. */
  function Scanned(l: Rows, rows: Rows, limit: nat): (n: nat)
    ensures n <= |rows|
  {
    if rows == [] || limit == 0 then 0
    else Scanned(l, rows[1..], if HasTerminator(l, rows[0].id) then limit else limit - 1) + 1
  }

  /** Of those it keeps exactly the open ones, and it looks at all rows unless it has enough. */
  lemma {:induction false} ScanKeepsOpen(l: Rows, rows: Rows, limit: nat)
    ensures FirstOpen(l, rows, limit) == StillOpen(l, rows[..Scanned(l, rows, limit)])
    ensures |FirstOpen(l, rows, limit)| < limit ==> Scanned(l, rows, limit) == |rows|
  {
    hide HasTerminator;
    if rows != [] && limit != 0 {
      var n := Scanned(l, rows, limit);
      ScanKeepsOpen(l, rows[1..], if HasTerminator(l, rows[0].id) then limit else limit - 1);
      assert rows[..n][1..] == rows[1..][..n - 1];
    }
  }

  /** If it stops early, then at the last one it keeps. */
  lemma {:induction false} ScanEndsAtLast(l: Rows, rows: Rows, limit: nat)
    requires |FirstOpen(l, rows, limit)| == limit > 0
    ensures var n := Scanned(l, rows, limit);
            n > 0 && FirstOpen(l, rows, limit)[limit - 1] == rows[n - 1]
  {
    hide HasTerminator;
    var n := Scanned(l, rows, limit);
    if HasTerminator(l, rows[0].id) {
      ScanEndsAtLast(l, rows[1..], limit);
      assert rows[1..][n - 2] == rows[n - 1];
    } else if limit > 1 {
      ScanEndsAtLast(l, rows[1..], limit - 1);
      assert rows[1..][n - 2] == rows[n - 1];
    }
  }

  lemma PageTakes(l: Rows, found: Rows, limit: nat) returns (n: nat)
    requires limit >= 1
    ensures n <= |found| && PageOf(l, found, limit).Page?
    ensures var page := PageOf(l, found, limit);
            && page.open == StillOpen(l, found[..n]) && |page.open| <= limit
            && (page.next.Some? ==> 0 < n && page.next.value == found[n - 1].id)
            && (page.next.None? ==> n == |found|)
  {
    hide StillOpen, FirstOpen, Scanned;
    if found == [] {
      n := 0;
      NothingOpen(l);
    } else {
      var cap := Min(3 * limit, CANDIDATE_CAP);
      var rows := if |found| > cap then found[..cap] else found;
      n := Scanned(l, rows, limit);
      ScanKeepsOpen(l, rows, limit);
      if |FirstOpen(l, rows, limit)| == limit { ScanEndsAtLast(l, rows, limit); }
      assert rows[..n] == found[..n];
    }
  }

  /** A page is the open part of a stretch of obligations that starts at its cursor, and its own
      cursor is the end of that stretch. A missing cursor means that nothing is left. */
  lemma PageIsStretch(l: Rows, p: Principal, cursor: Option<ReceiptId>, k: nat, limit: int) returns (to: nat)
    requires Numbered(l) && Distinct(l, p) && At(l, p, cursor, k) && limit >= 1
    ensures k <= to <= |Obligations(l, p)| && ListOpen(l, p, cursor, limit).Page?
    ensures var page := ListOpen(l, p, cursor, limit);
            && page.open == StillOpen(l, Obligations(l, p)[k..to]) && |page.open| <= limit
            && (page.next.Some? ==> k < to && At(l, p, page.next, to))
            && (page.next.None? ==> to == |Obligations(l, p)|)
  {
    hide Obligations, PageOf, StillOpen, Numbered, Distinct;
    FetchedAt(l, p, cursor, k);
    var found := Obligations(l, p)[k..];
    var n := PageTakes(l, found, limit);
    to := k + n;
    assert found[..n] == Obligations(l, p)[k..to];
  }

  lemma NothingOpen(l: Rows)
    ensures StillOpen(l, []) == []
  {
  }

  // ---------------------------------------------------------------------------------------
  // A walk over all pages
  // ---------------------------------------------------------------------------------------

  lemma {:induction false} CandidatesShrink(l: Rows, p: Principal, a: Option<Time>, b: Time)
    requires a.Some? ==> a.value <= b
    ensures |Candidates(l, p, Some(b))| <= |Candidates(l, p, a)|
    ensures (exists r :: r in Candidates(l, p, a) && r.createdAt <= b) ==>
              |Candidates(l, p, Some(b))| < |Candidates(l, p, a)|
  {
    if l == [] {
    } else {
      var n := |l| - 1;
      CandidatesShrink(l[..n], p, a, b);
      if r :| r in Candidates(l, p, a) && r.createdAt <= b {
        if r != l[n] {
          assert r in Candidates(l[..n], p, a);
        }
      }
    }
  }

  lemma {:induction false} FirstOpenMember(l: Rows, rows: Rows, limit: nat, r: Receipt)
    requires r in FirstOpen(l, rows, limit)
    ensures r in rows
  {
    if r != rows[0] || HasTerminator(l, rows[0].id) {
      FirstOpenMember(l, rows[1..], if HasTerminator(l, rows[0].id) then limit else limit - 1, r);
    }
  }

  /** Every page moves on, whatever the times are: fewer candidates lie behind its cursor than
      before. */
  lemma PageAdvances(l: Rows, p: Principal, cursor: Option<ReceiptId>, limit: int)
    requires Numbered(l) && limit >= 1
    ensures var page := ListOpen(l, p, cursor, limit);
            && page.Page?
            && (page.next.Some? ==>
                  |Candidates(l, p, SinceTime(l, page.next))| < |Candidates(l, p, SinceTime(l, cursor))|)
  {
    hide HasTerminator;
    var page := ListOpen(l, p, cursor, limit);
    var found := Candidates(l, p, SinceTime(l, cursor));
    if page.next.Some? {
      var cap := Min(3 * limit, CANDIDATE_CAP);
      var rows := if |found| > cap then found[..cap] else found;
      var last := if |page.open| == limit then page.open[limit - 1] else rows[cap - 1];
      assert last in rows by {
        if |page.open| == limit { FirstOpenMember(l, rows, limit, last); }
      }
      assert last in found;
      assert page.next == Some(last.id) && last in l;
      CandidatesShrink(l, p, SinceTime(l, cursor), last.createdAt);
    }
  }

  /** All pages, from `cursor` to the end, put together. */
  function Walk(l: Rows, p: Principal, cursor: Option<ReceiptId>, limit: int): Rows
    requires Numbered(l) && limit >= 1
    decreases |Candidates(l, p, SinceTime(l, cursor))|
  {
    PageAdvances(l, p, cursor, limit);
    var page := ListOpen(l, p, cursor, limit);
    page.open + (if page.next.None? then [] else Walk(l, p, page.next, limit))
  }

  lemma {:induction false} StillOpenAppend(l: Rows, a: Rows, b: Rows)
    ensures StillOpen(l, a + b) == StillOpen(l, a) + StillOpen(l, b)
  {
    if a == [] {
      assert a + b == b;
    } else {
      assert (a + b)[1..] == a[1..] + b;
      StillOpenAppend(l, a[1..], b);
    }
  }

  lemma {:induction false} WalkFrom(l: Rows, p: Principal, cursor: Option<ReceiptId>, k: nat, limit: int)
    requires Numbered(l) && Distinct(l, p) && At(l, p, cursor, k) && limit >= 1
    ensures Walk(l, p, cursor, limit) == StillOpen(l, Obligations(l, p)[k..])
    decreases |Candidates(l, p, SinceTime(l, cursor))|
  {
    hide ListOpen, HasTerminator, Candidates, StillOpen;
    var c := Obligations(l, p);
    var page := ListOpen(l, p, cursor, limit);
    var to := PageIsStretch(l, p, cursor, k, limit);
    assert c[k..] == c[k..to] + c[to..];
    StillOpenAppend(l, c[k..to], c[to..]);
    if page.next.Some? {
      PageAdvances(l, p, cursor, limit);
      WalkFrom(l, p, page.next, to, limit);
    } else {
      assert c[to..] == [];
      NothingOpen(l);
    }
  }

  /** On a fixed ledger the walk returns exactly the obligations of the principal for which there
      is no terminator, each once and in order, whatever the page size. */
  lemma WalkIsExact(l: Rows, p: Principal, limit: int)
    requires Numbered(l) && Distinct(l, p) && limit >= 1
    ensures Walk(l, p, None, limit) == StillOpen(l, Obligations(l, p))
  {
    var c := Obligations(l, p);
    assert c[0..] == c;
    WalkFrom(l, p, None, 0, limit);
  }

  /** The same in plain words. If the assignments addressed to `p` have distinct times, a receipt is
      returned by the walk exactly if it is such an assignment and no completed, failed or canceled
      receipt names it; and receipts come in the order of their times. */
  lemma ListsExactlyTheOpen(l: Rows, p: Principal, limit: int, r: Receipt)
    requires limit >= 1 && forall i :: 0 <= i < |l| ==> l[i].id == i
    requires forall i, j | 0 <= i < j < |l| && l[i].says.rtype.TaskAssigned? && l[i].says.to == p
                           && l[j].says.rtype.TaskAssigned? && l[j].says.to == p :: l[i].createdAt < l[j].createdAt
    ensures Numbered(l)
    ensures r in Walk(l, p, None, limit) <==>
              exists i :: 0 <= i < |l| && l[i] == r && r.says.to == p && r.says.rtype.TaskAssigned? &&
                          !exists j :: 0 <= j < |l| && l[j].says.rtype in {TaskCompleted, TaskFailed, TaskCanceled}
                                       && i in l[j].says.parents
    ensures forall i, j :: 0 <= i < j < |Walk(l, p, None, limit)| ==>
              Walk(l, p, None, limit)[i].createdAt < Walk(l, p, None, limit)[j].createdAt
  {
    DistinctMeans(l, p);
    hide Walk, Distinct, StillOpen, Candidates;
    WalkIsExact(l, p, limit);
    var c := Obligations(l, p);
    ObligationsDistinct(l, p);
    StillOpenByTime(l, c);
    assert r in c <==> r in l && IsCandidate(r, p, None);
    if r in l {
      var i :| 0 <= i < |l| && l[i] == r;
      assert r.id == i;
      TerminatorMeans(l, i);
    }
  }

  lemma DistinctMeans(l: Rows, p: Principal)
    requires forall i, j | 0 <= i < j < |l| && l[i].says.rtype.TaskAssigned? && l[i].says.to == p
                           && l[j].says.rtype.TaskAssigned? && l[j].says.to == p :: l[i].createdAt < l[j].createdAt
    ensures Distinct(l, p)
  {
  }

  lemma TerminatorMeans(l: Rows, id: ReceiptId)
    ensures HasTerminator(l, id) <==>
              exists j :: 0 <= j < |l| && l[j].says.rtype in {TaskCompleted, TaskFailed, TaskCanceled}
                          && id in l[j].says.parents
  {
  }

  lemma {:induction false} StillOpenByTime(l: Rows, rows: Rows)
    requires forall i, j :: 0 <= i < j < |rows| ==> rows[i].createdAt < rows[j].createdAt
    ensures forall i, j :: 0 <= i < j < |StillOpen(l, rows)| ==>
              StillOpen(l, rows)[i].createdAt < StillOpen(l, rows)[j].createdAt
  {
    hide HasTerminator;
    if rows == [] {
    } else {
      StillOpenByTime(l, rows[1..]);
      forall r | r in StillOpen(l, rows[1..]) ensures rows[0].createdAt < r.createdAt {
        var i :| 0 <= i < |rows| - 1 && rows[1..][i] == r;
      }
    }
  }

  /** Whatever the ledger, every receipt on a page is an assignment addressed to `p`, newer than the
      cursor receipt, that no terminal receipt names; and a page holds no more than the limit. */
  lemma PageHoldsOwnOpen(l: Rows, p: Principal, cursor: Option<ReceiptId>, limit: int, r: Receipt)
    requires ListOpen(l, p, cursor, limit).Page? && r in ListOpen(l, p, cursor, limit).open
    ensures r in l && r.says.to == p && r.says.rtype.TaskAssigned?
    ensures cursor.Some? && cursor.value < |l| ==> l[cursor.value].createdAt < r.createdAt
    ensures !exists j :: 0 <= j < |l| && l[j].says.rtype in {TaskCompleted, TaskFailed, TaskCanceled}
                         && r.id in l[j].says.parents
    ensures |ListOpen(l, p, cursor, limit).open| <= limit
  {
    hide Candidates, HasTerminator;
    var found := Candidates(l, p, SinceTime(l, cursor));
    var cap := Min(3 * limit, CANDIDATE_CAP);
    var rows := if |found| > cap then found[..cap] else found;
    FirstOpenIsOpen(l, rows, limit, r);
    FirstOpenMember(l, rows, limit, r);
    assert r in found;
    TerminatorMeans(l, r.id);
  }

  lemma {:induction false} FirstOpenIsOpen(l: Rows, rows: Rows, limit: nat, r: Receipt)
    requires r in FirstOpen(l, rows, limit)
    ensures !HasTerminator(l, r.id)
  {
    if r != rows[0] || HasTerminator(l, rows[0].id) {
      FirstOpenIsOpen(l, rows[1..], if HasTerminator(l, rows[0].id) then limit else limit - 1, r);
    }
  }

  /** How many assignments to `p` that are newer than `since` a stretch of the ledger holds. */
  function AssignedTo(l: Rows, p: Principal, since: Option<Time>): nat {
    if l == [] then 0
    else
      var n := |l| - 1;
      AssignedTo(l[..n], p, since) +
      if l[n].says.to == p && l[n].says.rtype.TaskAssigned? && (since.Some? ==> since.value < l[n].createdAt) then 1 else 0
  }

  lemma {:induction false} CandidatesCounted(l: Rows, p: Principal, since: Option<Time>)
    ensures |Candidates(l, p, since)| == AssignedTo(l, p, since)
  {
    if l == [] {
    } else {
      CandidatesCounted(l[..|l| - 1], p, since);
    }
  }

  lemma {:induction false} CandidatePlace(l: Rows, p: Principal, since: Option<Time>, k: nat)
    requires Numbered(l) && k < |Candidates(l, p, since)|
    ensures var id := Candidates(l, p, since)[k].id; id < |l| && |Candidates(l[..id + 1], p, since)| == k + 1
  {
    var n := |l| - 1;
    var before := Candidates(l[..n], p, since);
    if k < |before| {
      CandidatePlace(l[..n], p, since, k);
      assert l[..n][..before[k].id + 1] == l[..before[k].id + 1];
    } else {
      assert l[..n + 1] == l;
    }
  }

  /** A page that is not full but has a cursor has looked at exactly three times its limit of the
      assignments behind its own cursor, or at a thousand; one without a cursor at all of them. */
  lemma PageLooksFar(l: Rows, p: Principal, cursor: Option<ReceiptId>, limit: int)
    requires Numbered(l) && limit >= 1 && |ListOpen(l, p, cursor, limit).open| < limit
    ensures var page, since := ListOpen(l, p, cursor, limit), SinceTime(l, cursor);
            var cap := if 3 * limit <= 1000 then 3 * limit else 1000;
            if page.next.Some? then page.next.value < |l| && AssignedTo(l[..page.next.value + 1], p, since) == cap
            else AssignedTo(l, p, since) <= cap
  {
    hide Candidates, FirstOpen, AssignedTo;
    var since := SinceTime(l, cursor);
    var found := Candidates(l, p, since);
    var cap := Min(3 * limit, CANDIDATE_CAP);
    CandidatesCounted(l, p, since);
    if |found| > cap {
      CandidatePlace(l, p, since, cap - 1);
      CandidatesCounted(l[..found[cap - 1].id + 1], p, since);
    }
  }

  lemma TiesFetched(p: Principal, a: Receipt, b: Receipt)
    requires IsCandidate(a, p, None) && IsCandidate(b, p, None) && a.createdAt == b.createdAt
    ensures Candidates([a, b], p, None) == [a, b]
    ensures Candidates([a, b], p, Some(a.createdAt)) == []
  {
    var l := [a, b];
    assert l[..1][..0] == [] && l[..1] == [a];
    assert Candidates(l[..1], p, None) == [a];
    assert Candidates(l[..1], p, Some(a.createdAt)) == [];
  }

  lemma BothOpen(p: Principal, a: Receipt, b: Receipt)
    requires IsCandidate(a, p, None) && IsCandidate(b, p, None)
    ensures StillOpen([a, b], [a, b]) == [a, b] && FirstOpen([a, b], [a, b], 1) == [a]
  {
    var l := [a, b];
    assert !HasTerminator(l, a.id) && !HasTerminator(l, b.id);
    hide HasTerminator;
    assert l[1..] == [b] && [b][1..] == [];
    assert StillOpen(l, [b]) == [b];
  }

  lemma TiesPaged(p: Principal, a: Receipt, b: Receipt)
    requires IsCandidate(a, p, None) && IsCandidate(b, p, None) && a.id == 0 && a.createdAt == b.createdAt
    ensures ListOpen([a, b], p, None, 1) == Page([a], Some(0))
    ensures ListOpen([a, b], p, Some(0), 1) == Page([], None)
  {
    TiesFetched(p, a, b);
    BothOpen(p, a, b);
    hide Candidates, FirstOpen;
  }

  /** Equal times do lose work: of two open obligations created at the same instant, a walk with
      one obligation per page returns only the first. */
  lemma TiesAreLost(p: Principal, a: Receipt, b: Receipt)
    requires IsCandidate(a, p, None) && IsCandidate(b, p, None) && a.id == 0 && b.id == 1
    requires a.createdAt == b.createdAt
    ensures Numbered([a, b]) && Chronological([a, b])
    ensures Walk([a, b], p, None, 1) == [a] && StillOpen([a, b], Obligations([a, b], p)) == [a, b]
  {
    TiesFetched(p, a, b);
    BothOpen(p, a, b);
    TiesPaged(p, a, b);
    hide SinceTime, Candidates, StillOpen, FirstOpen, HasTerminator, ListOpen;
    assert Walk([a, b], p, Some(0), 1) == [];
  }

  // ---------------------------------------------------------------------------------------
  // Paging while the ledger grows
  // ---------------------------------------------------------------------------------------

  /** The first page has no cursor, every other the one its predecessor returned. */
  function CursorBefore(pages: seq<Listing>, i: nat): Option<ReceiptId>
    requires i < |pages|
  {
    if i == 0 || pages[i - 1].Rejected? then None else pages[i - 1].next
  }

  /** Pages read one after the other, each from the ledger as it was at the time. */
  ghost predicate IsPaging(ls: seq<Rows>, p: Principal, limit: int, pages: seq<Listing>) {
    && |ls| == |pages| > 0
    && (forall i :: 0 <= i < |ls| ==> Numbered(ls[i]) && Distinct(ls[i], p))
    && (forall i, j :: 0 <= i <= j < |ls| ==> ls[i] <= ls[j])
    && (forall i :: 0 <= i < |pages| - 1 ==> pages[i].Page? && pages[i].next.Some?)
    && (forall i :: 0 <= i < |pages| ==>
          pages[i] == ListOpen(ls[i], p, CursorBefore(pages, i), limit))
  }

  /** What the first `n` pages returned, in order. */
  function Returned(pages: seq<Listing>, n: nat): Rows
    requires n <= |pages|
  {
    if n == 0 then [] else Returned(pages, n - 1) + (if pages[n - 1].Page? then pages[n - 1].open else [])
  }

  /** The receipts `read` so far cover the first `k` obligations: they are some of those, each once
      and in order, and leave out only closed ones. */
  ghost predicate Covers(l: Rows, p: Principal, read: Rows, k: nat) {
    && k <= |Obligations(l, p)|
    && (forall r :: r in read ==> r in Obligations(l, p)[..k])
    && (forall r :: r in Obligations(l, p)[..k] && !HasTerminator(l, r.id) ==> r in read)
    && Rising(read)
  }

  predicate Rising(rows: Rows) { forall i, j :: 0 <= i < j < |rows| ==> rows[i].id < rows[j].id }

  lemma {:induction false} StillOpenOrdered(l: Rows, rows: Rows)
    requires Rising(rows)
    ensures Rising(StillOpen(l, rows))
  {
    if rows == [] {
    } else {
      StillOpenOrdered(l, rows[1..]);
      forall r | r in StillOpen(l, rows[1..]) ensures rows[0].id < r.id {
        var i :| 0 <= i < |rows| - 1 && rows[1..][i] == r;
      }
    }
  }

  /** A ledger that has grown covers no less. */
  lemma CoversGrown(l: Rows, l': Rows, p: Principal, read: Rows, k: nat)
    requires l <= l' && Covers(l, p, read, k)
    ensures Covers(l', p, read, k)
  {
    hide HasTerminator;
    CandidatesPrefix(l, l', p, None);
    var c, c' := Obligations(l, p), Obligations(l', p);
    assert c'[..k] == c[..k];
    forall r | r in c'[..k] && !HasTerminator(l', r.id) ensures r in read {
      if HasTerminator(l, r.id) { TerminatorStays(l, l', r.id); }
    }
  }

  lemma StretchesRise(c: Rows, a: Rows, b: Rows, k: nat, to: nat)
    requires k <= to <= |c| && Rising(c) && Rising(a) && Rising(b)
    requires (forall r :: r in a ==> r in c[..k]) && (forall r :: r in b ==> r in c[k..to])
    ensures Rising(a + b)
  {
    forall i, j | 0 <= i < |a| && 0 <= j < |b| ensures a[i].id < b[j].id {
      assert a[i] in a && b[j] in b;
      var x :| 0 <= x < k && c[..k][x] == a[i];
      var y :| 0 <= y < to - k && c[k..to][y] == b[j];
      assert c[x].id < c[k + y].id;
    }
  }

  /** One more page covers the next stretch. */
  lemma CoversMore(l: Rows, p: Principal, read: Rows, page: Rows, k: nat, to: nat)
    requires Numbered(l) && Distinct(l, p) && Covers(l, p, read, k) && k <= to <= |Obligations(l, p)|
    requires page == StillOpen(l, Obligations(l, p)[k..to])
    ensures Covers(l, p, read + page, to)
  {
    var c := Obligations(l, p);
    hide HasTerminator, StillOpen, Obligations, Numbered, Distinct, Rising;
    RisingSlice(l, p, k, to);
    StillOpenOrdered(l, c[k..to]);
    StretchesRise(c, read, page, k, to);
    assert c[..to] == c[..k] + c[k..to];
  }

  lemma RisingSlice(l: Rows, p: Principal, k: nat, to: nat)
    requires Numbered(l) && Distinct(l, p) && k <= to <= |Obligations(l, p)|
    ensures Rising(Obligations(l, p)) && Rising(Obligations(l, p)[k..to])
  {
    ObligationsDistinct(l, p);
  }

  lemma PageAt(ls: seq<Rows>, p: Principal, limit: int, pages: seq<Listing>, n: nat)
    requires IsPaging(ls, p, limit, pages) && n < |ls|
    ensures |pages| == |ls| && Numbered(ls[n]) && Distinct(ls[n], p)
    ensures n > 0 ==> ls[n - 1] <= ls[n] && pages[n - 1].Page? && pages[n - 1].next.Some?
    ensures pages[n] == ListOpen(ls[n], p, if n == 0 then None else pages[n - 1].next, limit)
  {
    hide ListOpen, Numbered, Distinct;
    assert pages[n] == ListOpen(ls[n], p, CursorBefore(pages, n), limit);
  }

  lemma PagingStep(l: Rows, l': Rows, p: Principal, limit: int, read: Rows, cursor: Option<ReceiptId>, from: nat)
    returns (k: nat)
    requires l <= l' && Numbered(l') && Distinct(l', p) && limit >= 1
    requires Covers(l, p, read, from) && At(l, p, cursor, from)
    ensures var page := ListOpen(l', p, cursor, limit);
            && page.Page? && Covers(l', p, read + page.open, k)
            && (if page.next.Some? then At(l', p, page.next, k) else k == |Obligations(l', p)|)
  {
    CoversGrown(l, l', p, read, from);
    AtGrown(l, l', p, cursor, from);
    k := PageIsStretch(l', p, cursor, from, limit);
    hide ListOpen, Obligations, HasTerminator, Numbered, Distinct, StillOpen, Rising;
    CoversMore(l', p, read, ListOpen(l', p, cursor, limit).open, from, k);
  }

  lemma {:induction false} PagingCovers(ls: seq<Rows>, p: Principal, limit: int, pages: seq<Listing>, n: nat)
    returns (k: nat)
    requires IsPaging(ls, p, limit, pages) && limit >= 1 && n < |ls|
    ensures |pages| == |ls| && pages[n].Page? && Covers(ls[n], p, Returned(pages, n + 1), k)
    ensures if pages[n].next.Some? then At(ls[n], p, pages[n].next, k) else k == |Obligations(ls[n], p)|
  {
    hide IsPaging, ListOpen, Obligations, Numbered, Distinct, Covers, At;
    PageAt(ls, p, limit, pages, n);
    if n > 0 {
      var from := PagingCovers(ls, p, limit, pages, n - 1);
      k := PagingStep(ls[n - 1], ls[n], p, limit, Returned(pages, n), pages[n - 1].next, from);
    } else {
      CoversNothing(p);
      k := PagingStep([], ls[n], p, limit, [], None, 0);
    }
  }

  lemma AtGrown(l: Rows, l': Rows, p: Principal, cursor: Option<ReceiptId>, k: nat)
    requires l <= l' && At(l, p, cursor, k)
    ensures At(l', p, cursor, k)
  {
    CandidatesPrefix(l, l', p, None);
  }

  lemma CoversNothing(p: Principal)
    ensures Covers([], p, [], 0) && At([], p, None, 0)
  {
  }

  /** Following cursors over a growing ledger never returns an obligation twice; and once the
      cursor is null, every obligation that existed at the start and stayed open throughout has
      been returned. */
  lemma PagingUnderGrowth(ls: seq<Rows>, p: Principal, limit: int, pages: seq<Listing>)
    requires IsPaging(ls, p, limit, pages) && limit >= 1
    ensures |pages| == |ls|
    ensures var all := Returned(pages, |pages|);
            && (forall i, j :: 0 <= i < j < |all| ==> all[i].id != all[j].id)
            && pages[|pages| - 1].Page?
            && (pages[|pages| - 1].next.None? ==>
                  forall r :: r in Obligations(ls[0], p) && !HasTerminator(ls[|ls| - 1], r.id) ==> r in all)
  {
    hide ListOpen, Candidates, HasTerminator, Returned;
    var n := |pages| - 1;
    var k := PagingCovers(ls, p, limit, pages, n);
    CandidatesPrefix(ls[0], ls[n], p, None);
  }
}

/** What the listing means for tasks: a worker that walks its inbox finds all unfinished work. */
module OpenWork {
  import opened Domain
  import opened Ledger
  import opened Obligations
  import L = Lifecycle
  import I = LifecycleInvariant
  import T = LifecycleTheorems
  import G = Guarantees
  import E = Effects

  /** A receipt of the task is returned exactly if nothing closes it. */
  ghost predicate ListedIffOpen(l: Rows, t: TaskId, limit: int)
    requires Numbered(l) && limit >= 1
  {
    forall i :: 0 <= i < |l| && IsAssignment(l[i], t) ==>
      (l[i] in Walk(l, l[i].says.to, None, limit) <==> !HasTerminator(l, i))
  }

  /** No owner of the task has two obligations of one time. */
  ghost predicate OwnersDistinct(l: Rows, t: TaskId) {
    forall i :: 0 <= i < |l| && IsAssignment(l[i], t) ==> Distinct(l, l[i].says.to)
  }

  lemma ListedWhenOpen(l: Rows, t: TaskId, limit: int)
    requires Numbered(l) && OwnersDistinct(l, t) && limit >= 1
    ensures ListedIffOpen(l, t, limit)
  {
    hide Walk, HasTerminator, Distinct;
    forall i | 0 <= i < |l| && IsAssignment(l[i], t)
      ensures l[i] in Walk(l, l[i].says.to, None, limit) <==> !HasTerminator(l, i)
    {
      WalkIsExact(l, l[i].says.to, limit);
      assert l[i] in l;
    }
  }

  /** In every reachable state in which each owner's obligations have distinct times, the walk over
      an owner's pages returns every assignment of an unfinished task. Once the task has failed, was canceled
      or has succeeded with artifacts, exactly one of its assignments is no longer returned. */
  lemma UnfinishedWorkIsListed(c: Config, s: L.State, t: TaskId, limit: int)
    requires L.Reachable(c, s) && t in s.tasks && OwnersDistinct(s.ledger, t) && limit >= 1
    ensures Numbered(s.ledger)
    ensures !IsTerminal(s.tasks[t].status) ==>
              forall i :: 0 <= i < |s.ledger| && IsAssignment(s.ledger[i], t) ==>
                s.ledger[i] in Walk(s.ledger, s.ledger[i].says.to, None, limit)
    ensures IsTerminal(s.tasks[t].status) && !I.Unlocatable(s.tasks[t]) ==>
              exists i :: 0 <= i < |s.ledger| && IsAssignment(s.ledger[i], t) && OnlyUnlisted(s.ledger, t, limit, i)
  {
    hide L.Reachable, Walk, HasTerminator, Numbered, OwnersDistinct, Outcomes, Of, Count, IsTerminal, IsAssignment;
    NumberedWhenReachable(c, s);
    ListedWhenOpen(s.ledger, t, limit);
    G.TerminalReceipts(c, s, t);
  }

  /** Of the task's assignments, row `i` and no other is missing from its owner's walk. */
  ghost predicate OnlyUnlisted(l: Rows, t: TaskId, limit: int, i: nat)
    requires Numbered(l) && limit >= 1 && i < |l|
  {
    forall j :: 0 <= j < |l| && IsAssignment(l[j], t) ==> (l[j] in Walk(l, l[j].says.to, None, limit) <==> j != i)
  }

  lemma NumberedWhenReachable(c: Config, s: L.State)
    requires L.Reachable(c, s)
    ensures Numbered(s.ledger)
  {
    hide L.Reachable, I.Tables, I.Accounts, I.Pending, I.Lifetimes;
    T.ReachableInv(c, s);
    forall i | 0 <= i < |s.ledger| ensures s.ledger[i].id == i { assert I.RowFits(s, i); }
  }

  /** In every reachable state an unfinished task can be found in the listing of its owner: the walk
      returns an assignment of the task that is addressed to the owner in its row. */
  lemma OwnerFindsTask(c: Config, s: L.State, t: TaskId, limit: int)
    requires L.Reachable(c, s) && t in s.tasks && s.tasks[t].status in {Queued, Leased, Running} && limit >= 1
    requires OwnersDistinct(s.ledger, t)
    ensures Numbered(s.ledger)
    ensures exists r :: r in Walk(s.ledger, s.tasks[t].owner, None, limit) && r.says.rtype.TaskAssigned?
                        && r.says.task == Some(t) && r.says.to == s.tasks[t].owner
  {
    hide L.Reachable, Walk, OwnersDistinct;
    UnfinishedWorkIsListed(c, s, t, limit);
    E.OwnerIsAssigned(c, s, t);
    var i :| 0 <= i < |s.ledger| && s.ledger[i].says.rtype.TaskAssigned? && s.ledger[i].says.task == Some(t)
             && s.ledger[i].says.to == s.tasks[t].owner;
    assert IsAssignment(s.ledger[i], t);
  }
}
