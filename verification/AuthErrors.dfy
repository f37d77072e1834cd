/**
 The burst of authentication errors that throws cached credentials away (core/vk_auth.go,
 handleAuthError and invalidate), and the successful allocation that ends it (core/session.go).
 Times are whole seconds; calls do not interleave.
 */
module AuthErrors {
  import opened Wrappers

  const MAX_CACHE_ERRORS := 3
  const ERROR_WINDOW := 10

  /** What happened to a cache: an authentication error at a time, or a TURN allocation that worked. */
  datatype Report = AuthFailed(at: int) | Allocated

  /** The later error continues the burst of the earlier report. */
  predicate Continues(earlier: Report, later: Report) {
    earlier.AuthFailed? && later.AuthFailed? && later.at - earlier.at <= ERROR_WINDOW
  }

  /** The errors since the last success or the last gap longer than the window. */
  function Burst(reports: seq<Report>): nat {
    var n := |reports|;
    if n == 0 || reports[n - 1].Allocated? then 0
    else if n == 1 || !Continues(reports[n - 2], reports[n - 1]) then 1
    else Burst(reports[..n - 1]) + 1
  }

  /** It is the longest end of the history that consists of errors, each at most ten seconds after the
      one before. */
  lemma {:induction false} BurstIsLongest(reports: seq<Report>)
    ensures Burst(reports) <= |reports|
    ensures Burst(reports) == 0 <==> reports == [] || reports[|reports| - 1].Allocated?
    ensures forall i :: |reports| - Burst(reports) <= i < |reports| ==> reports[i].AuthFailed?
    ensures forall i :: |reports| - Burst(reports) < i < |reports| ==> reports[i].at - reports[i - 1].at <= 10
    ensures var i := |reports| - Burst(reports);
            0 < i < |reports| ==> reports[i - 1].Allocated? || reports[i].at - reports[i - 1].at > 10
  {
    var n := |reports|;
    if n > 1 && Continues(reports[n - 2], reports[n - 1]) {
      BurstIsLongest(reports[..n - 1]);
    }
  }

  lemma BurstStep(reports: seq<Report>, now: int)
    ensures Burst(reports + [Allocated]) == 0
    ensures Burst(reports + [AuthFailed(now)])
         == if reports != [] && Continues(reports[|reports| - 1], AuthFailed(now)) then Burst(reports) + 1 else 1
  {
    assert (reports + [AuthFailed(now)])[..|reports|] == reports;
  }

  lemma NextInThree(k: nat)
    ensures (k + 1) % MAX_CACHE_ERRORS == if k % MAX_CACHE_ERRORS == 2 then 0 else k % MAX_CACHE_ERRORS + 1
  {
  }

  /** The part of a cache that counts errors; creds are whatever is cached. */
  class ErrorCounter<T> {
    var creds: Option<T>
    var errorCount: nat
    var lastErrorTime: int
    ghost var reports: seq<Report>

    ghost predicate Valid()
      reads this
    {
      && errorCount == Burst(reports) % MAX_CACHE_ERRORS
      && (errorCount > 0 ==> reports != [] && reports[|reports| - 1] == AuthFailed(lastErrorTime))
    }

    constructor ()
      ensures Valid() && creds == None && reports == []
    {
      creds, errorCount, lastErrorTime, reports := None, 0, 0, [];
    }

    method Store(fetched: T)
      requires Valid()
      modifies this`creds
      ensures Valid() && creds == Some(fetched)
    {
      creds := Some(fetched);
    }

    /** A relay was allocated with the cached credentials: the count starts again. */
    method AllocateSucceeded()
      requires Valid()
      modifies this`errorCount, this`reports
      ensures Valid() && reports == old(reports) + [Allocated] && errorCount == 0
    {
      hide Burst;
      BurstStep(reports, 0);
      errorCount := 0;
      reports := reports + [Allocated];
    }

    /** Every third error of a burst, and no other, invalidates the cache. */
    method HandleAuthError(now: int) returns (invalidated: bool)
      requires Valid()
      modifies this
      ensures Valid() && reports == old(reports) + [AuthFailed(now)]
      ensures invalidated <==> Burst(reports) % 3 == 0
      ensures creds == if invalidated then None else old(creds)
    {
      hide Burst;
      BurstStep(reports, now);
      NextInThree(Burst(reports));
      if now - lastErrorTime > ERROR_WINDOW {
        errorCount := 0;
      }
      errorCount := errorCount + 1;
      lastErrorTime := now;
      reports := reports + [AuthFailed(now)];
      invalidated := errorCount >= MAX_CACHE_ERRORS;
      if invalidated {
        creds, errorCount, lastErrorTime := None, 0, 0;
      }
    }
  }
}
