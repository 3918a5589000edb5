/**
 * The remote collections behind every list screen. The REST API knows only
 * "give me the first `number` records matching this filter"; it has no offset
 * and no cursor. A server is modelled as a fixed ordered collection per filter,
 * plus at most one fault in the sequence of requests one screen operation makes.
 */
module Paging {

  datatype Option<T> = None | Some(value: T)

  /** Every "Load More" grows the requested window by this many records. */
  const Step: nat := 10

  /** How a request can go wrong: the call rejects (missing configuration,
      non-2xx status, network failure), or it resolves with a body that lacks
      the collection's field. */
  datatype FaultKind = Rejected | FieldMissing

  /** The request with index `attempt` (0 for the first request of an
      operation) goes wrong in the way `kind` says. */
  datatype Fault = Fault(attempt: nat, kind: FaultKind)

  /** A read-only REST endpoint: for each filter value the full ordered list of
      matching records, and the fault (if any) that interrupts the operation. */
  datatype Server<!F, T> = Server(collection: F -> seq<T>, fault: Option<Fault>)

  /** What one request yields: a rejection, or a response body whose
      collection field may be absent. */
  datatype Reply<T> = Failed | Answered(list: Option<seq<T>>)

  function Min(a: nat, b: nat): nat {
    if a <= b then a else b
  }

  /** The first `n` records of `xs`, or all of them if there are fewer. */
  function FirstN<T>(xs: seq<T>, n: nat): (r: seq<T>)
    ensures r <= xs && |r| <= n
    ensures |r| < n ==> r == xs
  {
    xs[..Min(n, |xs|)]
  }

  /** The server's reply to request number `attempt` of an operation, asking
      for the first `number` records matching `filter`. */
  function Answer<F, T>(s: Server<F, T>, attempt: nat, filter: F, number: nat): (r: Reply<T>)
    ensures r.Failed? <==> s.fault == Some(Fault(attempt, Rejected))
    ensures r == Answered(None) <==> s.fault == Some(Fault(attempt, FieldMissing))
    ensures r.Answered? && r.list.Some? ==> r.list.value == FirstN(s.collection(filter), number)
  {
    if s.fault == Some(Fault(attempt, Rejected)) then Failed
    else if s.fault == Some(Fault(attempt, FieldMissing)) then Answered(None)
    else Answered(Some(FirstN(s.collection(filter), number)))
  }

  /** `data?.<field> ?? []`: an absent collection field reads as empty. */
  function Records<T>(list: Option<seq<T>>): (r: seq<T>)
    ensures list.None? ==> r == []
    ensures list.Some? ==> r == list.value
  {
    match list
    case None => []
    case Some(xs) => xs
  }

  /** End-of-data test of the list screens: more records may exist unless the
      reply held fewer records than `limit`. */
  predicate HasMore(fetched: nat, limit: nat) {
    fetched >= limit
  }

  /** The windows a list screen requests: positive multiples of the step. */
  predicate IsWindow(limit: nat) {
    limit >= Step && limit % Step == 0
  }

  /** "Load More" turns a window into a window. */
  lemma GrowWindow(limit: nat)
    requires IsWindow(limit)
    ensures IsWindow(limit + Step)
  {
  }

  /** A window that grows only ever extends the previous reply: the server's
      "first n" is a prefix of its "first m" for n <= m. */
  lemma FirstNGrows<T>(xs: seq<T>, n: nat, m: nat)
    requires n <= m
    ensures FirstN(xs, n) <= FirstN(xs, m)
    ensures |FirstN(xs, m)| - |FirstN(xs, n)| <= m - n
  {
  }

  /** The end-of-data test is exact for a "first n" server: a reply of the
      window that was asked for signals more records iff the collection holds
      at least that many. */
  lemma HasMoreExact<T>(xs: seq<T>, n: nat)
    ensures HasMore(|FirstN(xs, n)|, n) <==> |xs| >= n
    ensures !HasMore(|FirstN(xs, n)|, n) ==> FirstN(xs, n) == xs
  {
  }
}
