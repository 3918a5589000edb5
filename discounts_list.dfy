/**
 * The discount codes list. The endpoint cannot filter by status, so the screen
 * scans: it asks for the first `offset + 10` discounts, keeps the active ones,
 * advances `offset` by the size of the reply, and repeats until it holds
 * `currentLimit` active discounts or a reply has fewer than ten records. The
 * result is cut to `currentLimit`. Because every request asks for a prefix of
 * the collection, later replies repeat the records of earlier ones, and their
 * active records are appended again.
 */
module DiscountsList {
  import opened Paging

  datatype Discount = Discount(id: int, code: string, status: string)

  predicate IsActive(d: Discount) {
    d.status == "active"
  }

  /** Every scan request asks for this many records beyond the offset, and a
      reply shorter than this ends the scan. */
  const RawBatch: nat := 10

  /** `batch.filter(d => d.status === "active")`. */
  function Active(xs: seq<Discount>): seq<Discount>
  {
    if xs == [] then []
    else (if IsActive(xs[0]) then [xs[0]] else []) + Active(xs[1..])
  }

  /** The filter keeps only active records of its input, and no more records
      than the input has. */
  lemma {:induction false} ActiveSpec(xs: seq<Discount>)
    ensures |Active(xs)| <= |xs|
    ensures forall d :: d in Active(xs) ==> d in xs && IsActive(d)
    decreases |xs|
  {
    if xs != [] {
      ActiveSpec(xs[1..]);
    }
  }

  /** The index of the first active record, or |xs| if there is none. */
  function FirstActive(xs: seq<Discount>): (p: nat)
    ensures p <= |xs|
    ensures p < |xs| ==> IsActive(xs[p])
    ensures forall i :: 0 <= i < p ==> !IsActive(xs[i])
  {
    if xs == [] then 0
    else if IsActive(xs[0]) then 0
    else 1 + FirstActive(xs[1..])
  }

  /** The records behind the discounts endpoint (it takes no filter). */
  function Upstream(s: Server<(), Discount>): seq<Discount> {
    s.collection(())
  }

  /** The scan loop stops: the accumulator is already full, some request
      fails or lacks the field, the collection holds fewer than ten records,
      or it holds an active record. Otherwise it requests forever. */
  predicate ScanEnds(s: Server<(), Discount>, acc: seq<Discount>, limit: nat) {
    || |acc| >= limit
    || s.fault.Some?
    || |Upstream(s)| < RawBatch
    || FirstActive(Upstream(s)) < |Upstream(s)|
  }

  /** How the scan ends: a request rejected (the catch clause), or the
      accumulator and offset it stopped with. */
  datatype ScanEnd = Interrupted | Finished(acc: seq<Discount>, offset: nat)

  /** Termination measure: requests left before the fault. */
  function FaultBudget(s: Server<(), Discount>, attempt: nat): nat {
    if s.fault.Some? && attempt <= s.fault.value.attempt then s.fault.value.attempt - attempt else 0
  }

  /** Termination measure: active records still wanted. */
  function Shortfall(acc: seq<Discount>, limit: nat): nat {
    if |acc| < limit then limit - |acc| else 0
  }

  /** Termination measure: how far the offset is from reaching the first
      active record. */
  function Gap(s: Server<(), Discount>, offset: nat): nat {
    var p := FirstActive(Upstream(s));
    if offset <= p then p + 1 - offset else 0
  }

  /** A reply that holds the first active record contributes an active record. */
  lemma {:induction false} ActiveOfPrefix(xs: seq<Discount>, n: nat)
    requires FirstActive(xs) < n <= |xs|
    ensures Active(xs[..n]) != []
    decreases n
  {
    if !IsActive(xs[0]) {
      assert xs[..n][1..] == xs[1..][..n - 1];
      ActiveOfPrefix(xs[1..], n - 1);
    }
  }

  /** A reply that stops short of the first active record contributes none. */
  lemma {:induction false} ActiveBeforeFirst(xs: seq<Discount>, n: nat)
    requires n <= FirstActive(xs) && n <= |xs|
    ensures Active(xs[..n]) == []
    decreases n
  {
    if n > 0 {
      assert xs[..n][1..] == xs[1..][..n - 1];
      ActiveBeforeFirst(xs[1..], n - 1);
    }
  }

  /** What one pass of the loop body does with a request: a rejection stops
      the scan, a reply of fewer than ten records is the last one, and a full
      reply lets the loop go on. Each reply's active records are appended and
      the offset grows by the reply's size. */
  datatype Round = Rejection | LastRound(acc: seq<Discount>, offset: nat) | NextRound(acc: seq<Discount>, offset: nat)

  function Request(s: Server<(), Discount>, acc: seq<Discount>, offset: nat, attempt: nat): Round {
    match Answer(s, attempt, (), offset + RawBatch)
    case Failed => Rejection
    case Answered(list) =>
      var batch := Records(list);
      if |batch| < RawBatch then LastRound(acc + Active(batch), offset + |batch|)
      else NextRound(acc + Active(batch), offset + |batch|)
  }

  /** The loop of `loadDiscounts`, from an accumulator, an offset and the
      index of the next request. */
  ghost function Scan(s: Server<(), Discount>, acc: seq<Discount>, offset: nat, attempt: nat, limit: nat): ScanEnd
    requires ScanEnds(s, acc, limit)
    requires s.fault.Some? ==> attempt <= s.fault.value.attempt
    decreases FaultBudget(s, attempt), Shortfall(acc, limit), Gap(s, offset)
  {
    if |acc| >= limit then Finished(acc, offset)
    else
      match Request(s, acc, offset, attempt)
      case Rejection => Interrupted
      case LastRound(acc', offset') => Finished(acc', offset')
      case NextRound(acc', offset') =>
        ScanProgress(s, acc, offset, attempt, limit);
        Scan(s, acc', offset', attempt + 1, limit)
  }

  /** One full request of the scan makes progress in the termination measure. */
  lemma ScanProgress(s: Server<(), Discount>, acc: seq<Discount>, offset: nat, attempt: nat, limit: nat)
    requires ScanEnds(s, acc, limit) && |acc| < limit
    requires s.fault.Some? ==> attempt <= s.fault.value.attempt
    requires Request(s, acc, offset, attempt).NextRound?
    ensures var next := Request(s, acc, offset, attempt);
      var acc', offset' := next.acc, next.offset;
      && (s.fault.Some? ==> attempt + 1 <= s.fault.value.attempt)
      && (|| FaultBudget(s, attempt + 1) < FaultBudget(s, attempt)
          || (FaultBudget(s, attempt + 1) == FaultBudget(s, attempt) && Shortfall(acc', limit) < Shortfall(acc, limit))
          || (FaultBudget(s, attempt + 1) == FaultBudget(s, attempt) && Shortfall(acc', limit) == Shortfall(acc, limit)
              && Gap(s, offset') < Gap(s, offset)))
  {
    var reply := Answer(s, attempt, (), offset + RawBatch);
    var batch := Records(reply.list);
    if s.fault.Some? {
      assert s.fault.value != Fault(attempt, Rejected);
      assert s.fault.value != Fault(attempt, FieldMissing);
      assert s.fault.value == Fault(s.fault.value.attempt, s.fault.value.kind);
      assert s.fault.value.kind == Rejected || s.fault.value.kind == FieldMissing;
    } else {
      var xs := Upstream(s);
      var p := FirstActive(xs);
      assert batch == FirstN(xs, offset + RawBatch);
      if offset + RawBatch <= p {
        ActiveBeforeFirst(xs, |batch|);
      } else {
        ActiveOfPrefix(xs, |batch|);
      }
    }
  }

  /** `Active` distributes over concatenation. */
  lemma {:induction false} ActiveAppend(a: seq<Discount>, b: seq<Discount>)
    ensures Active(a + b) == Active(a) + Active(b)
    decreases |a|
  {
    if a == [] {
      assert a + b == b;
    } else {
      assert (a + b)[0] == a[0];
      assert (a + b)[1..] == a[1..] + b;
      ActiveAppend(a[1..], b);
    }
  }

  /** A finished scan only appends: the records it started with stay in front,
      everything appended is an active record of the collection, and the
      offset grew by at least as many records as were appended. */
  lemma {:induction false} ScanAppendsActive(s: Server<(), Discount>, acc: seq<Discount>, offset: nat, attempt: nat, limit: nat)
    requires ScanEnds(s, acc, limit)
    requires s.fault.Some? ==> attempt <= s.fault.value.attempt
    requires Scan(s, acc, offset, attempt, limit).Finished?
    ensures var e := Scan(s, acc, offset, attempt, limit);
      && acc <= e.acc
      && offset <= e.offset && |e.acc| - |acc| <= e.offset - offset
      && forall i :: |acc| <= i < |e.acc| ==> IsActive(e.acc[i]) && e.acc[i] in Upstream(s)
    decreases FaultBudget(s, attempt), Shortfall(acc, limit), Gap(s, offset)
  {
    if |acc| < limit {
      var r := Request(s, acc, offset, attempt);
      if r.NextRound? {
        RoundAppendsActive(s, acc, offset, attempt);
        ScanProgress(s, acc, offset, attempt, limit);
        ScanAppendsActive(s, r.acc, r.offset, attempt + 1, limit);
      } else if r.LastRound? {
        RoundAppendsActive(s, acc, offset, attempt);
      }
    }
  }

  /** One answered request only appends, and only active records of the
      collection, no more of them than the reply holds, by which much the
      offset grows. */
  lemma RoundAppendsActive(s: Server<(), Discount>, acc: seq<Discount>, offset: nat, attempt: nat)
    requires !Request(s, acc, offset, attempt).Rejection?
    ensures var r := Request(s, acc, offset, attempt);
      && acc <= r.acc
      && offset <= r.offset && |r.acc| - |acc| <= r.offset - offset
      && forall i :: |acc| <= i < |r.acc| ==> IsActive(r.acc[i]) && r.acc[i] in Upstream(s)
  {
    var reply := Answer(s, attempt, (), offset + RawBatch);
    BatchIsActiveUpstream(s, acc, Records(reply.list));
  }

  /** The records one request appends are active records of the collection. */
  lemma BatchIsActiveUpstream(s: Server<(), Discount>, acc: seq<Discount>, batch: seq<Discount>)
    requires batch <= Upstream(s)
    ensures acc <= acc + Active(batch) && |Active(batch)| <= |batch|
    ensures forall i :: |acc| <= i < |acc + Active(batch)| ==>
      IsActive((acc + Active(batch))[i]) && (acc + Active(batch))[i] in Upstream(s)
  {
    ActiveSpec(batch);
    forall i | |acc| <= i < |acc + Active(batch)|
      ensures IsActive((acc + Active(batch))[i]) && (acc + Active(batch))[i] in Upstream(s)
    {
      var d := (acc + Active(batch))[i];
      assert d == Active(batch)[i - |acc|];
      assert d in batch;
    }
  }

  /** Why a scan ends: a rejected request is the only way to be interrupted,
      and a finished scan either holds `limit` records, or saw the whole
      collection in one reply because it has fewer than ten records, or got a
      reply without the `discounts` field. */
  lemma {:induction false} ScanStopReason(s: Server<(), Discount>, acc: seq<Discount>, offset: nat, attempt: nat, limit: nat)
    requires ScanEnds(s, acc, limit)
    requires s.fault.Some? ==> attempt <= s.fault.value.attempt
    ensures Scan(s, acc, offset, attempt, limit).Interrupted? ==> s.fault.Some? && s.fault.value.kind == Rejected
    ensures Scan(s, acc, offset, attempt, limit).Finished? ==>
      || |Scan(s, acc, offset, attempt, limit).acc| >= limit
      || |Upstream(s)| < RawBatch
      || (s.fault.Some? && s.fault.value.kind == FieldMissing)
    decreases FaultBudget(s, attempt), Shortfall(acc, limit), Gap(s, offset)
  {
    if |acc| < limit {
      var r := Request(s, acc, offset, attempt);
      if r.NextRound? {
        ScanProgress(s, acc, offset, attempt, limit);
        ScanStopReason(s, r.acc, r.offset, attempt + 1, limit);
      } else if r.LastRound? && Answer(s, attempt, (), offset + RawBatch).list.Some? {
        assert |FirstN(Upstream(s), offset + RawBatch)| < offset + RawBatch;
      }
    }
  }

  /** The `while` loop of `loadDiscounts` with its requests. `failed` says
      that a request was rejected (control goes to the catch clause);
      otherwise the loop ended with `acc'` and `offset'`. */
  method RunScan(server: Server<(), Discount>, acc: seq<Discount>, offset: nat, limit: nat)
      returns (failed: bool, acc': seq<Discount>, offset': nat)
    requires ScanEnds(server, acc, limit)
    ensures failed <==> Scan(server, acc, offset, 0, limit).Interrupted?
    ensures !failed ==> Scan(server, acc, offset, 0, limit) == Finished(acc', offset')
  {
    acc', offset' := acc, offset;
    var attempt: nat := 0;
    failed := false;
    ghost var outcome := Scan(server, acc, offset, 0, limit);
    while |acc'| < limit
      invariant !failed
      invariant ScanEnds(server, acc', limit)
      invariant server.fault.Some? ==> attempt <= server.fault.value.attempt
      invariant outcome == Scan(server, acc', offset', attempt, limit)
      decreases FaultBudget(server, attempt), Shortfall(acc', limit), Gap(server, offset')
    {
      match Request(server, acc', offset', attempt) {
        case Rejection =>
          failed := true;
          break;
        case LastRound(next, nextOffset) =>
          acc', offset' := next, nextOffset;
          break;
        case NextRound(next, nextOffset) =>
          ScanProgress(server, acc', offset', attempt, limit);
          acc', offset', attempt := next, nextOffset, attempt + 1;
      }
    }
    if failed {
      assert outcome == Interrupted;
    } else {
      assert outcome == Finished(acc', offset');
    }
  }

  /** The initial window of the screen; no code path changes it. */
  const InitialLimit: nat := 10

  class DiscountsScreen {
    var discounts: seq<Discount>
    var loading: bool
    var loadingMore: bool
    var hasMoreDiscounts: bool
    var currentLimit: nat

    /** The window stays at its initial size and the list never exceeds it. */
    ghost predicate Valid()
      reads this
    {
      currentLimit == InitialLimit && |discounts| <= currentLimit
    }

    /** The state the screen mounts with, before its first load. */
    constructor ()
      ensures Valid()
      ensures discounts == [] && loading && !loadingMore && hasMoreDiscounts
    {
      discounts := [];
      loading := true;
      loadingMore := false;
      hasMoreDiscounts := true;
      currentLimit := InitialLimit;
    }

    /** `loadDiscounts(isLoadMore)`, run to completion as one step. A fresh
        load scans from nothing at offset 0, a load-more from the current list
        at an offset equal to its length. The scan is cut to the window; on a
        rejected request the list is emptied. */
    method LoadDiscounts(isLoadMore: bool, server: Server<(), Discount>)
      requires Valid()
      requires ScanEnds(server, if isLoadMore then discounts else [], currentLimit)
      modifies this`discounts, this`hasMoreDiscounts, this`loading, this`loadingMore
      ensures Valid() && !loading && !loadingMore
      ensures match Scan(server, if isLoadMore then old(discounts) else [],
                         if isLoadMore then |old(discounts)| else 0, 0, currentLimit)
        case Interrupted => discounts == [] && hasMoreDiscounts == old(hasMoreDiscounts)
        case Finished(acc, offset) =>
          && discounts == FirstN(acc, currentLimit)
          && hasMoreDiscounts == (|discounts| >= currentLimit && offset > |discounts|)
    {
      if !isLoadMore {
        loading := true;
      } else {
        loadingMore := true;
      }
      var activeDiscounts := if isLoadMore then discounts else [];
      var offset: nat := if isLoadMore then |discounts| else 0;
      var failed;
      failed, activeDiscounts, offset := RunScan(server, activeDiscounts, offset, currentLimit);
      if failed {
        discounts := [];
      } else {
        activeDiscounts := FirstN(activeDiscounts, currentLimit);
        discounts := activeDiscounts;
        hasMoreDiscounts := |activeDiscounts| >= currentLimit && offset > |activeDiscounts|;
      }
      loading := false;
      loadingMore := false;
    }

    /** `handleLoadMore`: a load-more with the unchanged window. A full list
        therefore fetches nothing, stays as it is and reports no more data. */
    method HandleLoadMore(server: Server<(), Discount>)
      requires Valid()
      requires ScanEnds(server, discounts, currentLimit)
      modifies this`discounts, this`hasMoreDiscounts, this`loading, this`loadingMore
      ensures Valid() && !loading && !loadingMore
      ensures match Scan(server, old(discounts), |old(discounts)|, 0, currentLimit)
        case Interrupted => discounts == [] && hasMoreDiscounts == old(hasMoreDiscounts)
        case Finished(acc, offset) =>
          && discounts == FirstN(acc, currentLimit)
          && hasMoreDiscounts == (|discounts| >= currentLimit && offset > |discounts|)
      ensures |old(discounts)| == currentLimit ==> discounts == old(discounts) && !hasMoreDiscounts
      ensures discounts != [] ==> old(discounts) <= discounts
    {
      ghost var held := discounts;
      LoadDiscounts(true, server);
      if discounts != [] {
        ScanAppendsActive(server, held, |held|, 0, currentLimit);
      }
    }
  }

  /** `n` copies of one discount. */
  function Copies(d: Discount, n: nat): (r: seq<Discount>)
    ensures |r| == n && forall i :: 0 <= i < n ==> r[i] == d
  {
    seq(n, _ => d)
  }

  /** The collection holds exactly one active discount, at index `p`. */
  predicate OnlyActiveAt(xs: seq<Discount>, p: nat) {
    p < |xs| && IsActive(xs[p]) && forall i :: 0 <= i < |xs| && IsActive(xs[i]) ==> i == p
  }

  lemma {:induction false} ActiveOfOnly(xs: seq<Discount>, p: nat)
    requires OnlyActiveAt(xs, p)
    ensures Active(xs) == [xs[p]]
  {
    assert xs == xs[..p] + [xs[p]] + xs[p + 1..];
    ActiveAppend(xs[..p] + [xs[p]], xs[p + 1..]);
    ActiveAppend(xs[..p], [xs[p]]);
    ActiveNone(xs[..p]);
    ActiveNone(xs[p + 1..]);
    assert Active([xs[p]]) == [xs[p]] + Active([]);
  }

  lemma {:induction false} ActiveNone(xs: seq<Discount>)
    requires forall i :: 0 <= i < |xs| ==> !IsActive(xs[i])
    ensures Active(xs) == []
    decreases |xs|
  {
    if xs != [] {
      ActiveNone(xs[1..]);
    }
  }

  /** With one active discount among the first ten, every request of the scan
      gets a full reply whose only active record is that discount. */
  lemma OneActivePerReply(xs: seq<Discount>, p: nat, number: nat)
    requires OnlyActiveAt(xs, p) && p < RawBatch <= |xs| && RawBatch <= number
    ensures |FirstN(xs, number)| >= RawBatch
    ensures Active(FirstN(xs, number)) == [xs[p]]
  {
    var batch := FirstN(xs, number);
    assert OnlyActiveAt(batch, p) by {
      assert forall i :: 0 <= i < |batch| ==> batch[i] == xs[i];
    }
    ActiveOfOnly(batch, p);
  }

  /** As written, each request asks for a prefix that repeats the records of
      the previous replies, and their active records are appended again. With
      one active discount among the first ten of a collection of ten or more,
      every further request appends that same discount, until the accumulator
      holds nothing but copies of it. */
  lemma {:induction false} OverlapRepeatsActive(s: Server<(), Discount>, p: nat, k: nat, offset: nat, attempt: nat, limit: nat)
    requires s.fault.None?
    requires OnlyActiveAt(Upstream(s), p) && p < RawBatch <= |Upstream(s)|
    requires k <= limit
    ensures ScanEnds(s, Copies(Upstream(s)[p], k), limit)
    ensures Scan(s, Copies(Upstream(s)[p], k), offset, attempt, limit).Finished?
    ensures Scan(s, Copies(Upstream(s)[p], k), offset, attempt, limit).acc == Copies(Upstream(s)[p], limit)
    decreases limit - k
  {
    var xs := Upstream(s);
    var a := xs[p];
    assert FirstActive(xs) <= p;
    if k < limit {
      var batch := FirstN(xs, offset + RawBatch);
      assert Answer(s, attempt, (), offset + RawBatch) == Answered(Some(batch));
      OneActivePerReply(xs, p, offset + RawBatch);
      assert Copies(a, k) + Active(batch) == Copies(a, k + 1);
      OverlapRepeatsActive(s, p, k + 1, offset + |batch|, attempt + 1, limit);
    }
  }

  /** The concrete case: twenty discounts with distinct ids, only the first
      one active. A fresh load shows that one discount ten times. */
  function OneActiveOfTwenty(): (xs: seq<Discount>)
    ensures |xs| == 20 && OnlyActiveAt(xs, 0)
  {
    seq(20, i => Discount(i, "CODE", if i == 0 then "active" else "expired"))
  }

  lemma DuplicateDiscountsExample()
    ensures var s := Server((_: ()) => OneActiveOfTwenty(), None);
      && ScanEnds(s, [], InitialLimit)
      && Scan(s, [], 0, 0, InitialLimit).Finished?
      && FirstN(Scan(s, [], 0, 0, InitialLimit).acc, InitialLimit) == Copies(OneActiveOfTwenty()[0], InitialLimit)
  {
    var s := Server((_: ()) => OneActiveOfTwenty(), None);
    OverlapRepeatsActive(s, 0, 0, 0, 0, InitialLimit);
  }

  /** As written, the loop never ends on a collection of ten or more
      discounts none of which is active, when no request fails: the state is
      outside `ScanEnds`, and from every offset and request number the next
      request gets a full reply, appends nothing, and the loop goes on with
      the same, still short, accumulator. */
  lemma NoActiveNeverEnds(s: Server<(), Discount>, acc: seq<Discount>, offset: nat, attempt: nat, limit: nat)
    requires s.fault.None? && |Upstream(s)| >= RawBatch && |acc| < limit
    requires forall i :: 0 <= i < |Upstream(s)| ==> !IsActive(Upstream(s)[i])
    ensures !ScanEnds(s, acc, limit)
    ensures Request(s, acc, offset, attempt) == NextRound(acc, offset + |FirstN(Upstream(s), offset + RawBatch)|)
  {
    var xs := Upstream(s);
    var batch := FirstN(xs, offset + RawBatch);
    assert Answer(s, attempt, (), offset + RawBatch) == Answered(Some(batch));
    assert |batch| >= RawBatch;
    ActiveNone(batch);
    assert acc + Active(batch) == acc;
  }

  /** The scan as evidently intended: each request's reply is a prefix of the
      collection, and only the records beyond those already scanned (`scanned`
      of them) are filtered and appended. It always terminates. */
  function IntendedScan(xs: seq<Discount>, acc: seq<Discount>, scanned: nat, limit: nat): seq<Discount>
    requires scanned <= |xs|
    decreases |xs| - scanned
  {
    if |acc| >= limit then acc
    else
      var batch := FirstN(xs, scanned + RawBatch);
      var acc' := acc + Active(batch[scanned..]);
      if |batch| < scanned + RawBatch then acc' else IntendedScan(xs, acc', |batch|, limit)
  }

  /** The intended scan from `scanned` records keeps the accumulator a prefix
      of the collection's active records and stops only with `limit` of them
      or all of them. */
  lemma {:induction false} IntendedScanIsActivePrefix(xs: seq<Discount>, scanned: nat, limit: nat)
    requires scanned <= |xs|
    ensures IntendedScan(xs, Active(xs[..scanned]), scanned, limit) <= Active(xs)
    ensures |IntendedScan(xs, Active(xs[..scanned]), scanned, limit)| >= limit
         || IntendedScan(xs, Active(xs[..scanned]), scanned, limit) == Active(xs)
    decreases |xs| - scanned
  {
    var acc := Active(xs[..scanned]);
    ActiveAppend(xs[..scanned], xs[scanned..]);
    assert xs[..scanned] + xs[scanned..] == xs;
    if |acc| < limit {
      var batch := FirstN(xs, scanned + RawBatch);
      assert batch[..scanned] == xs[..scanned];
      ActiveAppend(batch[..scanned], batch[scanned..]);
      assert batch[..scanned] + batch[scanned..] == batch;
      if |batch| >= scanned + RawBatch {
        IntendedScanIsActivePrefix(xs, |batch|, limit);
        assert xs[..|batch|] == batch;
      } else {
        assert batch == xs;
      }
    }
  }

  /** The corrected scan always ends, and on a collection with no active
      discount it loads the empty list. */
  lemma IntendedLoadOfNoActive(xs: seq<Discount>, limit: nat)
    requires forall i :: 0 <= i < |xs| ==> !IsActive(xs[i])
    ensures IntendedScan(xs, [], 0, limit) == []
  {
    assert xs[..0] == [];
    IntendedScanIsActivePrefix(xs, 0, limit);
    ActiveNone(xs);
  }

  /** The corrected load: a fresh load shows exactly the first `limit` active
      discounts of the collection (all of them if there are fewer), without
      repetition. */
  lemma IntendedLoadIsFirstActive(xs: seq<Discount>, limit: nat)
    ensures FirstN(IntendedScan(xs, [], 0, limit), limit) == FirstN(Active(xs), limit)
  {
    assert xs[..0] == [];
    IntendedScanIsActivePrefix(xs, 0, limit);
  }
}
