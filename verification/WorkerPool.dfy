/**
 Running an operation over many values with bounded concurrency. Workers share
 the next index and are suspended only while their operation runs; which of the
 running operations settles next is arbitrary, so the results below hold for
 every interleaving.
 */
module WorkerPool {
  import opened Prelude

  datatype PoolError<E> = InvalidConcurrency | Rejected(reason: E)

  datatype Worker = Running(index: nat) | Finished | Failed

  /** How many operations are under way. */
  function InFlight(workers: seq<Worker>): nat {
    if workers == [] then 0 else (if workers[0].Running? then 1 else 0) + InFlight(workers[1..])
  }

  lemma {:induction false} InFlightBounded(workers: seq<Worker>)
    ensures InFlight(workers) <= |workers|
    ensures InFlight(workers) == 0 <==> forall w | w in workers :: !w.Running?
  {
    if workers == [] {
    } else {
      InFlightBounded(workers[1..]);
      assert forall w | w in workers :: w == workers[0] || w in workers[1..];
    }
  }

  lemma {:induction false} InFlightUpdate(workers: seq<Worker>, w: nat, next: Worker)
    requires w < |workers| && workers[w].Running?
    ensures InFlight(workers[w := next]) == InFlight(workers) - (if next.Running? then 0 else 1)
  {
    if w == 0 {
      assert workers[w := next][1..] == workers[1..];
    } else {
      InFlightUpdate(workers[1..], w - 1, next);
      assert workers[w := next][1..] == workers[1..][w - 1 := next];
    }
  }

  /** The worker's claim when it comes round its loop. */
  function Claim(nextIndex: nat, count: nat): Worker {
    if nextIndex < count then Running(nextIndex) else Finished
  }

  /** Running workers hold distinct claimed indices whose results are still missing. */
  ghost predicate HoldsClaims<R>(workers: seq<Worker>, results: seq<Option<R>>, nextIndex: nat) {
    && nextIndex <= |results|
    && (forall i | nextIndex <= i < |results| :: results[i] == None)
    && (forall w | 0 <= w < |workers| && workers[w].Running? ::
          workers[w].index < nextIndex && results[workers[w].index] == None)
    && (forall v, w | 0 <= v < w < |workers| && workers[v].Running? && workers[w].Running? ::
          workers[v].index != workers[w].index)
  }

  /** Every result so far is its own operation's, and a missing one is unclaimed, under way or rejected. */
  ghost predicate Accounted<T(!new), R(!new), E(!new)>(
    values: seq<T>, operation: (T, nat) -> Result<R, E>, workers: seq<Worker>, results: seq<Option<R>>, nextIndex: nat,
    rejection: Option<E>)
  {
    && |results| == |values| && nextIndex <= |values|
    && (forall i | 0 <= i < |values| && results[i].Some? ::
          i < nextIndex && operation(values[i], i) == Ok(results[i].value))
    && (rejection.None? ==> forall i | 0 <= i < nextIndex && results[i].None? :: Running(i) in workers)
    && (rejection.Some? ==> exists i | 0 <= i < |values| :: operation(values[i], i) == Err(rejection.value))
    && (rejection.Some? <==> Failed in workers)
    && (Finished in workers ==> nextIndex == |values|)
  }

  function AfterClaim(nextIndex: nat, count: nat): nat {
    if nextIndex < count then nextIndex + 1 else nextIndex
  }

  lemma ClaimsSettled<R>(workers: seq<Worker>, results: seq<Option<R>>, nextIndex: nat, w: nat, value: R)
    requires HoldsClaims(workers, results, nextIndex) && w < |workers| && workers[w].Running?
    ensures HoldsClaims(workers[w := Claim(nextIndex, |results|)], results[workers[w].index := Some(value)],
                        AfterClaim(nextIndex, |results|))
  {
  }

  lemma Resolved<T(!new), R(!new), E(!new)>(
    values: seq<T>, operation: (T, nat) -> Result<R, E>, workers: seq<Worker>, results: seq<Option<R>>, nextIndex: nat,
    rejection: Option<E>, w: nat, value: R)
    requires Accounted(values, operation, workers, results, nextIndex, rejection) &&
      HoldsClaims(workers, results, nextIndex)
    requires w < |workers| && workers[w].Running? && operation(values[workers[w].index], workers[w].index) == Ok(value)
    ensures Accounted(values, operation, workers[w := Claim(nextIndex, |values|)],
                      results[workers[w].index := Some(value)], AfterClaim(nextIndex, |values|), rejection)
  {
    OthersStay(workers, w, Claim(nextIndex, |values|));
  }

  lemma RejectedOne<T(!new), R(!new), E(!new)>(
    values: seq<T>, operation: (T, nat) -> Result<R, E>, workers: seq<Worker>, results: seq<Option<R>>, nextIndex: nat,
    rejection: Option<E>, w: nat, reason: E)
    requires Accounted(values, operation, workers, results, nextIndex, rejection) &&
      HoldsClaims(workers, results, nextIndex)
    requires w < |workers| && workers[w].Running? &&
      operation(values[workers[w].index], workers[w].index) == Err(reason)
    ensures Accounted(values, operation, workers[w := Failed], results, nextIndex,
                      if rejection.None? then Some(reason) else rejection)
  {
    OthersStay(workers, w, Failed);
  }

  /** When nothing is under way and nothing was rejected, every result is there. */
  lemma AllDone<T(!new), R(!new), E(!new)>(
    values: seq<T>, operation: (T, nat) -> Result<R, E>, workers: seq<Worker>, results: seq<Option<R>>, nextIndex: nat)
    requires Accounted(values, operation, workers, results, nextIndex, None)
    requires forall w | 0 <= w < |workers| :: !workers[w].Running?
    requires |values| > 0 ==> |workers| > 0
    ensures nextIndex == |values|
    ensures forall i | 0 <= i < |values| :: results[i].Some? && operation(values[i], i) == Ok(results[i].value)
  {
    if |values| > 0 {
      assert workers[0] in workers;
    }
  }

  lemma Started<T(!new), R(!new), E(!new)>(
    values: seq<T>, operation: (T, nat) -> Result<R, E>, workers: seq<Worker>, results: seq<Option<R>>)
    requires |results| == |values| && |workers| <= |values|
    requires forall w | 0 <= w < |workers| :: workers[w] == Running(w)
    requires forall i | 0 <= i < |results| :: results[i] == None
    ensures HoldsClaims(workers, results, |workers|)
    ensures Accounted(values, operation, workers, results, |workers|, None)
  {
    forall i | 0 <= i < |workers|
      ensures Running(i) in workers
    {
      assert workers[i] == Running(i);
    }
  }

  /** Every worker runs up to its first await before any operation settles. */
  method StartWorkers<T>(values: seq<T>, size: nat) returns (workers: seq<Worker>, nextIndex: nat)
    requires size <= |values|
    ensures |workers| == nextIndex == size
    ensures forall w | 0 <= w < |workers| :: workers[w] == Running(w)
  {
    nextIndex := 0;
    workers := [];
    while |workers| < size
      invariant |workers| == nextIndex <= size
      invariant forall w | 0 <= w < |workers| :: workers[w] == Running(w)
    {
      workers := workers + [Claim(nextIndex, |values|)];
      nextIndex := nextIndex + 1;
    }
  }

  /** An operation settles: its worker stores the result and comes round its loop, or ends with the rejection. */
  method Resume<T(!new), R(!new), E(!new)>(
    values: seq<T>, operation: (T, nat) -> Result<R, E>, results: array<Option<R>>,
    workers: seq<Worker>, nextIndex: nat, rejection: Option<E>, w: nat)
    returns (nextWorkers: seq<Worker>, next: nat, rejected: Option<E>)
    requires HoldsClaims(workers, results[..], nextIndex)
    requires Accounted(values, operation, workers, results[..], nextIndex, rejection)
    requires w < |workers| && workers[w].Running?
    modifies results
    ensures HoldsClaims(nextWorkers, results[..], next)
    ensures Accounted(values, operation, nextWorkers, results[..], next, rejected)
    ensures |nextWorkers| == |workers|
    ensures nextIndex <= next <= nextIndex + 1 && next <= |values|
    ensures next == nextIndex ==> InFlight(nextWorkers) < InFlight(workers)
  {
    ClaimedIndex(workers, results[..], nextIndex, w);
    CountsMatch(values, operation, workers, results[..], nextIndex, rejection);
    hide HoldsClaims, Accounted;
    next, rejected := nextIndex, rejection;
    var index := workers[w].index;
    var settled := operation(values[index], index);
    if settled.Err? {
      RejectedOne(values, operation, workers, results[..], nextIndex, rejection, w, settled.error);
      ClaimsRejected(workers, results[..], nextIndex, w);
      if rejection.None? {
        rejected := Some(settled.error);
      }
      InFlightUpdate(workers, w, Failed);
      nextWorkers := workers[w := Failed];
    } else {
      Resolved(values, operation, workers, results[..], nextIndex, rejection, w, settled.value);
      ClaimsSettled(workers, results[..], nextIndex, w, settled.value);
      InFlightUpdate(workers, w, Claim(nextIndex, |values|));
      ghost var held := results[..];
      results[index] := Some(settled.value);
      assert results[..] == held[index := Some(settled.value)];
      nextWorkers := workers[w := Claim(nextIndex, |values|)];
      next := AfterClaim(nextIndex, |values|);
    }
  }

  lemma CountsMatch<T(!new), R(!new), E(!new)>(
    values: seq<T>, operation: (T, nat) -> Result<R, E>, workers: seq<Worker>, results: seq<Option<R>>, nextIndex: nat,
    rejection: Option<E>)
    requires Accounted(values, operation, workers, results, nextIndex, rejection)
    ensures |results| == |values| && nextIndex <= |values|
  {
  }

  /**
   `claimed` records the indices in the order in which they were claimed and
   `peak` the most operations that were ever under way.
   */
  method RunWithConcurrency<T(!new), R(!new), E(!new)>(
    values: seq<T>, concurrency: int, operation: (T, nat) -> Result<R, E>)
    returns (r: Result<seq<R>, PoolError<E>>, ghost claimed: seq<nat>, ghost peak: nat)
    ensures r == Err(InvalidConcurrency) <==> concurrency < 1
    ensures concurrency >= 1 ==> (r.Ok? <==> forall i | 0 <= i < |values| :: operation(values[i], i).Ok?)
    ensures r.Ok? ==> |r.value| == |values| && forall i | 0 <= i < |values| :: operation(values[i], i) == Ok(r.value[i])
    ensures r.Err? && r.error.Rejected? ==>
              exists i | 0 <= i < |values| :: operation(values[i], i) == Err(r.error.reason)
    ensures |claimed| <= |values| && forall k | 0 <= k < |claimed| :: claimed[k] == k
    ensures r.Ok? ==> |claimed| == |values|
    ensures peak <= Max(0, Min(concurrency, |values|))
  {
    hide HoldsClaims, Accounted, InFlight;
    claimed, peak := [], 0;
    if concurrency < 1 {
      return Err(InvalidConcurrency), [], 0;
    }
    var results := new Option<R>[|values|](_ => None);
    var size: nat := Min(concurrency, |values|);
    var workers, nextIndex := StartWorkers(values, size);
    Started(values, operation, workers, results[..]);
    var rejection: Option<E> := None;
    claimed := seq(nextIndex, k => k);
    InFlightBounded(workers);
    peak := InFlight(workers);
    while exists w | 0 <= w < |workers| :: workers[w].Running?
      invariant |workers| == size && peak <= size && nextIndex <= |values|
      invariant HoldsClaims(workers, results[..], nextIndex)
      invariant Accounted(values, operation, workers, results[..], nextIndex, rejection)
      invariant |claimed| == nextIndex && forall k | 0 <= k < nextIndex :: claimed[k] == k
      decreases |values| - nextIndex, InFlight(workers)
    {
      var w :| 0 <= w < |workers| && workers[w].Running?;
      ghost var before := nextIndex;
      workers, nextIndex, rejection := Resume(values, operation, results, workers, nextIndex, rejection, w);
      if nextIndex > before {
        claimed := claimed + [before];
      }
      InFlightBounded(workers);
      peak := Max(peak, InFlight(workers));
    }
    if rejection.Some? {
      RejectionIsReal(values, operation, workers, results[..], nextIndex, rejection);
      return Err(Rejected(rejection.value)), claimed, peak;
    }
    AllDone(values, operation, workers, results[..], nextIndex);
    r := Ok(Values(results[..]));
  }

  lemma ClaimedIndex<R>(workers: seq<Worker>, results: seq<Option<R>>, nextIndex: nat, w: nat)
    requires HoldsClaims(workers, results, nextIndex) && w < |workers| && workers[w].Running?
    ensures workers[w].index < nextIndex <= |results|
  {
  }

  lemma ClaimsRejected<R>(workers: seq<Worker>, results: seq<Option<R>>, nextIndex: nat, w: nat)
    requires HoldsClaims(workers, results, nextIndex) && w < |workers| && workers[w].Running?
    ensures HoldsClaims(workers[w := Failed], results, nextIndex)
  {
  }

  lemma RejectionIsReal<T(!new), R(!new), E(!new)>(
    values: seq<T>, operation: (T, nat) -> Result<R, E>, workers: seq<Worker>, results: seq<Option<R>>, nextIndex: nat,
    rejection: Option<E>)
    requires Accounted(values, operation, workers, results, nextIndex, rejection) && rejection.Some?
    ensures exists i | 0 <= i < |values| :: operation(values[i], i) == Err(rejection.value)
  {
  }

  lemma OthersStay(workers: seq<Worker>, w: nat, next: Worker)
    requires w < |workers|
    ensures next in workers[w := next]
    ensures forall x | x in workers && x != workers[w] :: x in workers[w := next]
    ensures forall x | x in workers[w := next] && x != next :: x in workers
  {
    assert workers[w := next][w] == next;
    forall x | x in workers && x != workers[w]
      ensures x in workers[w := next]
    {
      var v :| 0 <= v < |workers| && workers[v] == x;
      assert workers[w := next][v] == x;
    }
  }

  function Values<R>(results: seq<Option<R>>): (r: seq<R>)
    requires forall i | 0 <= i < |results| :: results[i].Some?
    ensures |r| == |results| && forall i | 0 <= i < |results| :: results[i] == Some(r[i])
  {
    seq(|results|, i requires 0 <= i < |results| && results[i].Some? => results[i].value)
  }
}
