/**
 The check of VK hashes before a connection (backend/vk_hash_manager.go): which hashes are used, from
 cached checks, then from probes, then from a replacement.  It must fail open, and must not hand out
 a hash known to be invalid.
 */
module HashPreflight {
  import opened HashRegistry
  import opened HashReplacement
  import opened VkHash
  import opened Wrappers

  const CHECK_TTL := 4 * 60 * 60 * 1000
  const ERROR_TTL := 5 * 60 * 1000
  const MAX_REPLACEMENTS := 2

  /** Times are in milliseconds. */
  predicate IsFresh(check: Check, now: int) {
    0 < check.checkedAt <= now && now - check.checkedAt < (if check.status == Error then ERROR_TTL else CHECK_TTL)
  }

  /** A check with this answer, made before now and less than four hours ago, or five minutes for an error. */
  predicate FreshFor(check: Option<Check>, now: int, status: Status) {
    && check.Some? && check.value.status == status && check.value.checkedAt > 0
    && check.value.checkedAt <= now < check.value.checkedAt + if status == Error then 300_000 else 14_400_000
  }

  datatype Probe = Answered(status: Status) | ContextDone | Broken

  datatype Policy = Policy(autoCheck: bool, autoReplace: bool, named: bool)

  /**
   What happens outside, by position of the candidate: its stored check when first and when next read,
   whether the deadline has passed before its probe or its replacement, what the probe returns, and what
   its replacement meets.
   */
  datatype World = World(now: int, first: nat -> Option<Check>, second: nat -> Option<Check>,
                         late: nat -> bool, probe: nat -> Probe, canceledAfterProbes: bool,
                         lateToReplace: nat -> bool, weather: nat -> Weather,
                         canceledAtEnd: bool, lateAtEnd: bool)

  /** Why there is no hash to give. */
  datatype Why = DeadlinePassed | ReplacementFailed(error: ReplaceError) | NothingWorks

  datatype Outcome =
    | Hashes(list: seq<string>)
    | NoCandidates
    | ProbeFailed
    | ConnectCanceled
    | NoneLeft(why: Why)

  // ---------------------------------------------------------------- what is known about a candidate

  predicate FreshWith(w: World, k: nat, status: Status) {
    w.first(k).Some? && IsFresh(w.first(k).value, w.now) && w.first(k).value.status == status
  }

  predicate FreshErrorAgain(w: World, k: nat) {
    w.second(k).Some? && IsFresh(w.second(k).value, w.now) && w.second(k).value.status == Error
  }

  /** The cache says nothing that spares a probe. */
  predicate Stale(w: World, k: nat) {
    !FreshWith(w, k, Valid) && !FreshWith(w, k, Error) && !FreshWith(w, k, Invalid)
  }

  /** Confirmed invalid by a fresh cached check, or by a probe of this run. */
  predicate Confirmed(w: World, probed: set<nat>, k: nat) {
    FreshWith(w, k, Invalid) || (k in probed && w.probe(k) == Answered(Invalid))
  }

  function HashesOf(entries: seq<Entry>): (r: seq<string>)
    ensures |r| == |entries|
    ensures forall i :: 0 <= i < |r| ==> r[i] == entries[i].hash
  {
    seq(|entries|, i requires 0 <= i < |entries| => entries[i].hash)
  }

  /** The candidates at the chosen positions, in order. */
  function At(candidates: seq<Entry>, chosen: seq<nat>): (r: seq<Entry>)
    requires forall i :: 0 <= i < |chosen| ==> chosen[i] < |candidates|
    ensures |r| == |chosen|
    ensures forall i :: 0 <= i < |r| ==> r[i] == candidates[chosen[i]]
  {
    seq(|chosen|, i requires 0 <= i < |chosen| => candidates[chosen[i]])
  }

  /** Positions below n, in order. */
  ghost predicate Below(chosen: seq<nat>, n: nat) {
    && (forall i :: 0 <= i < |chosen| ==> chosen[i] < n)
    && forall i, j :: 0 <= i < j < |chosen| ==> chosen[i] < chosen[j]
  }

  /** The positions below n that satisfy p, in order. */
  function Where(n: nat, p: nat -> bool): (r: seq<nat>)
    ensures forall k: nat :: k in r <==> k < n && p(k)
    ensures Below(r, n)
  {
    if n == 0 then [] else Where(n - 1, p) + (if p(n - 1) then [n - 1] else [])
  }

  /** The candidates not confirmed invalid. */
  function Usable(w: World, n: nat, probed: set<nat>): (r: seq<nat>)
    ensures Below(r, n) && forall k: nat :: k in r <==> k < n && !Confirmed(w, probed, k)
  {
    Where(n, (k: nat) => !Confirmed(w, probed, k))
  }

  function ValidOnes(w: World, n: nat): (r: seq<nat>)
    ensures Below(r, n) && forall k: nat :: k in r <==> k < n && FreshWith(w, k, Valid)
  {
    Where(n, (k: nat) => FreshWith(w, k, Valid))
  }

  function ConfirmedOnes(w: World, n: nat, probed: set<nat>): (r: seq<nat>)
    ensures Below(r, n) && forall k: nat :: k in r <==> k < n && Confirmed(w, probed, k)
  {
    Where(n, (k: nat) => Confirmed(w, probed, k))
  }

  function StaleOnes(w: World, n: nat): (r: seq<nat>)
    ensures Below(r, n) && forall k: nat :: k in r <==> k < n && Stale(w, k)
  {
    Where(n, (k: nat) => Stale(w, k))
  }

  function Unique(values: seq<string>): seq<string> {
    if values == [] then []
    else
      var before := Unique(values[..|values| - 1]);
      if values[|values| - 1] in before then before else before + [values[|values| - 1]]
  }

  lemma {:induction false} UniqueKeeps(values: seq<string>)
    requires forall i, j :: 0 <= i < j < |values| ==> values[i] != values[j]
    ensures Unique(values) == values
  {
    if values != [] {
      UniqueKeeps(values[..|values| - 1]);
    }
  }

  /** Candidates as candidateVKHashes gives them. */
  ghost predicate Distinct(candidates: seq<Entry>) {
    forall i, j :: 0 <= i < j < |candidates| ==> candidates[i].hash != candidates[j].hash
  }

  method ListOf(candidates: seq<Entry>, chosen: seq<nat>) returns (list: seq<string>)
    requires Distinct(candidates) && Below(chosen, |candidates|)
    ensures list == HashesOf(At(candidates, chosen))
  {
    var hashes := HashesOf(At(candidates, chosen));
    UniqueKeeps(hashes);
    list := Unique(hashes);
  }

  // ---------------------------------------------------------------- the steps

  lemma FreshExactly(w: World)
    ensures forall k: nat, status :: FreshWith(w, k, status) <==> FreshFor(w.first(k), w.now, status)
    ensures forall k: nat :: FreshErrorAgain(w, k) <==> FreshFor(w.second(k), w.now, Error)
  {
  }

  method Classify(w: World, n: nat) returns (valid: seq<nat>, fallback: seq<nat>, stale: seq<nat>)
    ensures valid == ValidOnes(w, n)
    ensures fallback == Usable(w, n, {})
    ensures stale == StaleOnes(w, n)
    ensures forall k: nat :: k in valid <==> k < n && FreshFor(w.first(k), w.now, Valid)
    ensures forall k: nat :: k in fallback <==> k < n && !FreshFor(w.first(k), w.now, Invalid)
    ensures forall k: nat :: k in stale <==> k < n && !FreshFor(w.first(k), w.now, Valid)
                                             && !FreshFor(w.first(k), w.now, Invalid) && !FreshFor(w.first(k), w.now, Error)
  {
    FreshExactly(w);
    valid, fallback, stale := [], [], [];
    for k := 0 to n
      invariant valid == ValidOnes(w, k)
      invariant fallback == Usable(w, k, {})
      invariant stale == StaleOnes(w, k)
    {
      var check := w.first(k);
      if check.None? || !IsFresh(check.value, w.now) {
        stale, fallback := stale + [k], fallback + [k];
        continue;
      }
      match check.value.status {
        case Valid => valid, fallback := valid + [k], fallback + [k];
        case Error => fallback := fallback + [k];
        case Invalid =>
        case Other => stale, fallback := stale + [k], fallback + [k];
      }
    }
  }

  /** The probe loop goes on past k: an invalid hash, a canceled check or an unknown answer. */
  predicate Passed(w: World, k: nat) {
    !w.late(k) && w.probe(k).Answered? && w.probe(k).status != Valid && w.probe(k).status != Error
  }

  datatype Stop = GotValid(at: nat) | GotError | GotBroken | RanOut

  function Members(s: seq<nat>): (r: set<nat>)
    ensures forall k :: k in r <==> k in s
  {
    set k | k in s
  }

  /** The last probe found a valid hash. */
  ghost predicate SettledBy(w: World, probed: seq<nat>) {
    probed != [] && w.probe(probed[|probed| - 1]) == Answered(Valid)
  }

  /** These are all the probes there are to make: each but the last said nothing that ends them, none
      came after the deadline, and after them an answer, the deadline or the end of the list stopped. */
  ghost predicate ProbesMade(w: World, stale: seq<nat>, probed: seq<nat>) {
    && probed <= stale
    && (forall i :: 0 <= i < |probed| ==> !w.late(probed[i]))
    && (forall i :: 0 <= i < |probed| - 1 ==> Passed(w, probed[i]))
    && (|probed| < |stale| ==> (probed != [] && !Passed(w, probed[|probed| - 1])) || w.late(stale[|probed|]))
  }

  /** Probes in order until an answer settles the matter or time is up. */
  method ProbeStale(w: World, stale: seq<nat>) returns (probed: seq<nat>, stop: Stop)
    ensures ProbesMade(w, stale, probed)
    ensures stop == if probed == [] then RanOut
                    else match w.probe(probed[|probed| - 1])
                         case Broken => GotBroken
                         case ContextDone => RanOut
                         case Answered(status) =>
                           if status == Valid then GotValid(probed[|probed| - 1]) else if status == Error then GotError else RanOut
  {
    probed := [];
    for i := 0 to |stale|
      invariant probed == stale[..i]
      invariant forall j :: 0 <= j < i ==> Passed(w, probed[j])
    {
      var k := stale[i];
      if w.late(k) {
        return probed, RanOut;
      }
      probed := probed + [k];
      assert probed == stale[..i + 1];
      match w.probe(k) {
        case ContextDone => return probed, RanOut;
        case Broken => return probed, GotBroken;
        case Answered(status) =>
          match status {
            case Valid => return probed, GotValid(k);
            case Error => return probed, GotError;
            case Invalid =>
            case Other =>
          }
      }
    }
    stop := RanOut;
  }

  // ---------------------------------------------------------------- replacements

  /** One attempt: the hash to replace, the id for a new entry, and what happens outside. */
  datatype Attempt = Attempt(id: string, newId: string, w: Weather)

  function AttemptsOf(w: World, candidates: seq<Entry>, tried: seq<nat>, newIds: seq<string>): (r: seq<Attempt>)
    requires |tried| <= |newIds| && forall i :: 0 <= i < |tried| ==> tried[i] < |candidates|
    ensures |r| == |tried|
    ensures forall i :: 0 <= i < |r| ==> r[i] == Attempt(candidates[tried[i]].id, newIds[i], w.weather(tried[i]))
  {
    seq(|tried|, i requires 0 <= i < |tried| => Attempt(candidates[tried[i]].id, newIds[i], w.weather(tried[i])))
  }

  /** The registry after some attempts, one after another. */
  function AfterAttempts(f: Normalizing, s: Registry, server: string, attempts: seq<Attempt>): Registry {
    if attempts == [] then s
    else
      var a := attempts[|attempts| - 1];
      ReplaceOf(f, AfterAttempts(f, s, server, attempts[..|attempts| - 1]), a.id, server, a.newId, a.w).0
  }

  /** What the last attempt returns. */
  function LastResult(f: Normalizing, s: Registry, server: string, attempts: seq<Attempt>): Result<Entry, ReplaceError>
    requires attempts != []
  {
    var a := attempts[|attempts| - 1];
    ReplaceOf(f, AfterAttempts(f, s, server, attempts[..|attempts| - 1]), a.id, server, a.newId, a.w).1
  }

  ghost predicate NewIds(entries: seq<Entry>, newIds: seq<string>) {
    && (forall i :: 0 <= i < |newIds| ==> NewId(entries, newIds[i]))
    && forall i, j :: 0 <= i < j < |newIds| ==> newIds[i] != newIds[j]
  }

  ghost predicate AllFailed(f: Normalizing, s: Registry, server: string, attempts: seq<Attempt>) {
    forall i :: 0 <= i < |attempts| ==> FailedAt(f, s, server, attempts, i)
  }

  ghost predicate FailedAt(f: Normalizing, s: Registry, server: string, attempts: seq<Attempt>, i: nat)
    requires i < |attempts|
  {
    LastResult(f, s, server, attempts[..i + 1]).Failure?
  }

  /** What attempts come to: only the last one may have given a hash. */
  ghost predicate Went(f: Normalizing, before: Registry, after: Registry, server: string, attempts: seq<Attempt>,
                       found: Option<string>, lastError: Option<ReplaceError>)
  {
    && after == AfterAttempts(f, before, server, attempts)
    && (attempts == [] ==> found.None? && lastError.None?)
    && (attempts != [] ==>
         && AllFailed(f, before, server, attempts[..|attempts| - 1])
         && match LastResult(f, before, server, attempts)
            case Success(e) => found == Some(e.hash)
            case Failure(error) => found == None && lastError == Some(error))
  }

  /** All attempts so far failed, the last with this error. */
  ghost predicate Failing(f: Normalizing, before: Registry, now: Registry, server: string, attempts: seq<Attempt>,
                          lastError: Option<ReplaceError>)
  {
    && now == AfterAttempts(f, before, server, attempts) && AllFailed(f, before, server, attempts)
    && if attempts == [] then lastError.None?
       else lastError.Some? && LastResult(f, before, server, attempts) == Failure(lastError.value)
  }

  ghost predicate IdsLeft(entries: seq<Entry>, newIds: seq<string>, from: nat) {
    forall i :: from <= i < |newIds| ==> NewId(entries, newIds[i])
  }

  /** One more attempt. */
  method TryOne(w: World, candidates: seq<Entry>, tried: seq<nat>, k: nat, store: HashStore, server: string, newIds: seq<string>,
                ghost before: Registry, ghost lastError: Option<ReplaceError>)
    returns (replaced: Result<Entry, ReplaceError>)
    requires store.Ok() && |tried| < |newIds| && IdsLeft(store.entries, newIds, |tried|) && k < |candidates|
    requires forall i, j :: 0 <= i < j < |newIds| ==> newIds[i] != newIds[j]
    requires forall i :: 0 <= i < |tried| ==> tried[i] < |candidates|
    requires Failing(store.f, before, Registry(store.entries, store.profiles), server, AttemptsOf(w, candidates, tried, newIds), lastError)
    modifies store
    ensures store.Ok() && IdsLeft(store.entries, newIds, |tried| + 1)
    ensures var attempts, now := AttemptsOf(w, candidates, tried + [k], newIds), Registry(store.entries, store.profiles);
            match replaced
            case Success(e) => Went(store.f, before, now, server, attempts, Some(e.hash), None)
            case Failure(error) => Failing(store.f, before, now, server, attempts, Some(error))
  {
    hide ReplaceOf, NewId, AllFailed;
    ghost var s := Registry(store.entries, store.profiles);
    ghost var earlier, attempts := AttemptsOf(w, candidates, tried, newIds), AttemptsOf(w, candidates, tried + [k], newIds);
    assert attempts[..|tried|] == earlier;
    replaced := store.Replace(candidates[k].id, server, newIds[|tried|], w.weather(k));
    forall i | |tried| + 1 <= i < |newIds| ensures NewId(store.entries, newIds[i]) {
      ReplaceKeepsIds(store.f, s, candidates[k].id, server, newIds[|tried|], w.weather(k), newIds[i]);
    }
    AttemptAdded(store.f, before, server, earlier, attempts);
  }

  /** There was no time, no attempt or no hash left for another replacement. */
  ghost predicate AllTried(w: World, confirmed: seq<nat>, tried: seq<nat>) {
    |tried| >= 2 || |tried| >= |confirmed| || w.lateToReplace(confirmed[|tried|])
  }

  lemma ConfirmedStep(w: World, n: nat, probed: set<nat>)
    ensures ConfirmedOnes(w, 0, probed) == []
    ensures ConfirmedOnes(w, n + 1, probed) == ConfirmedOnes(w, n, probed) + (if Confirmed(w, probed, n) then [n] else [])
  {
  }

  lemma {:induction false} ConfirmedPrefix(w: World, k: nat, n: nat, probed: set<nat>)
    requires k <= n
    ensures ConfirmedOnes(w, k, probed) <= ConfirmedOnes(w, n, probed)
    decreases n - k
  {
    if k < n {
      ConfirmedStep(w, k, probed);
      ConfirmedPrefix(w, k + 1, n, probed);
    }
  }

  /** Of the first k candidates the confirmed ones have been tried in order, up to the limit. */
  ghost predicate InOrder(w: World, probed: set<nat>, tried: seq<nat>, k: nat) {
    && Below(tried, k) && tried <= ConfirmedOnes(w, k, probed)
    && (|tried| < MAX_REPLACEMENTS ==> tried == ConfirmedOnes(w, k, probed))
    && forall i :: 0 <= i < |tried| ==> !w.lateToReplace(tried[i])
  }

  lemma InOrderNext(w: World, probed: set<nat>, tried: seq<nat>, k: nat)
    requires InOrder(w, probed, tried, k)
    ensures !Confirmed(w, probed, k) || |tried| >= MAX_REPLACEMENTS ==> InOrder(w, probed, tried, k + 1)
    ensures Confirmed(w, probed, k) && |tried| < MAX_REPLACEMENTS && !w.lateToReplace(k) ==> InOrder(w, probed, tried + [k], k + 1)
  {
    hide Confirmed, ConfirmedOnes;
    ConfirmedStep(w, k, probed);
  }

  /** The trial is over at position k. */
  lemma InOrderEnds(w: World, probed: set<nat>, tried: seq<nat>, k: nat, n: nat)
    requires InOrder(w, probed, tried, k) && k <= n
    ensures tried <= ConfirmedOnes(w, n, probed) && forall i :: 0 <= i < |tried| ==> !w.lateToReplace(tried[i])
    ensures Below(tried, n)
    ensures k == n || (Confirmed(w, probed, k) && w.lateToReplace(k)) ==> AllTried(w, ConfirmedOnes(w, n, probed), tried)
  {
    hide Confirmed, ConfirmedOnes;
    ConfirmedPrefix(w, k, n, probed);
    if k < n {
      ConfirmedStep(w, k, probed);
      ConfirmedPrefix(w, k + 1, n, probed);
    }
  }

  lemma InOrderStarts(w: World, probed: set<nat>)
    ensures InOrder(w, probed, [], 0)
  {
  }

  /** Tries to replace confirmed hashes; an attempt is counted even when the deadline stops it. */
  method TryReplace(w: World, candidates: seq<Entry>, probed: set<nat>, store: HashStore, server: string, newIds: seq<string>)
    returns (tried: seq<nat>, found: Option<string>, lastError: Option<ReplaceError>)
    requires store.Ok() && |newIds| == MAX_REPLACEMENTS && NewIds(store.entries, newIds)
    modifies store
    ensures store.Ok()
    ensures |tried| <= MAX_REPLACEMENTS && Below(tried, |candidates|)
    ensures tried <= ConfirmedOnes(w, |candidates|, probed) && forall i :: 0 <= i < |tried| ==> !w.lateToReplace(tried[i])
    ensures found.None? ==> AllTried(w, ConfirmedOnes(w, |candidates|, probed), tried)
    ensures found.Some? || Failing(store.f, Registry(old(store.entries), old(store.profiles)),
                                   Registry(store.entries, store.profiles), server, AttemptsOf(w, candidates, tried, newIds), lastError)
    ensures found.Some? ==> Went(store.f, Registry(old(store.entries), old(store.profiles)),
                                 Registry(store.entries, store.profiles), server, AttemptsOf(w, candidates, tried, newIds), found, None)
  {
    hide ReplaceOf, NewId, Confirmed, AllFailed, AttemptsOf, Failing, Went, ConfirmedOnes, AllTried, InOrder;
    tried, found, lastError := [], None, None;
    ghost var before := Registry(store.entries, store.profiles);
    NothingTried(store.f, before, server, w, candidates, newIds);
    InOrderStarts(w, probed);
    var attempts := 0;
    for k := 0 to |candidates|
      invariant store.Ok() && |tried| == attempts <= MAX_REPLACEMENTS && Below(tried, k) && InOrder(w, probed, tried, k)
      invariant IdsLeft(store.entries, newIds, |tried|) && found.None?
      invariant Failing(store.f, before, Registry(store.entries, store.profiles), server,
                        AttemptsOf(w, candidates, tried, newIds), lastError)
    {
      InOrderNext(w, probed, tried, k);
      if !Confirmed(w, probed, k) || attempts >= MAX_REPLACEMENTS {
        continue;
      }
      attempts := attempts + 1;
      if w.lateToReplace(k) {
        InOrderEnds(w, probed, tried, k, |candidates|);
        return;
      }
      var replaced := TryOne(w, candidates, tried, k, store, server, newIds, before, lastError);
      tried := tried + [k];
      match replaced {
        case Success(e) =>
          found := Some(e.hash);
          InOrderEnds(w, probed, tried, k + 1, |candidates|);
          return;
        case Failure(error) =>
          lastError := Some(error);
      }
    }
    InOrderEnds(w, probed, tried, |candidates|, |candidates|);
  }

  lemma NothingTried(f: Normalizing, s: Registry, server: string, w: World, candidates: seq<Entry>, newIds: seq<string>)
    ensures Failing(f, s, s, server, AttemptsOf(w, candidates, [], newIds), None)
  {
  }

  lemma AttemptAdded(f: Normalizing, s: Registry, server: string, earlier: seq<Attempt>, attempts: seq<Attempt>)
    requires |attempts| == |earlier| + 1 && attempts[..|earlier|] == earlier && AllFailed(f, s, server, earlier)
    ensures AllFailed(f, s, server, attempts[..|earlier|])
    ensures LastResult(f, s, server, attempts).Failure? ==> AllFailed(f, s, server, attempts)
  {
    hide ReplaceOf;
    forall i | 0 <= i < |earlier| ensures FailedAt(f, s, server, attempts[..|earlier|], i) {
      assert FailedAt(f, s, server, earlier, i);
    }
    forall i | 0 <= i < |attempts| && LastResult(f, s, server, attempts).Failure? ensures FailedAt(f, s, server, attempts, i) {
      if i < |earlier| {
        assert FailedAt(f, s, server, earlier, i) && attempts[..i + 1] == earlier[..i + 1];
      } else {
        assert attempts[..i + 1] == attempts;
      }
    }
  }

  /** The candidate shows in the registry: in the pool or used by a profile. */
  ghost predicate AllShow(f: Normalizing, s: Registry, candidates: seq<Entry>) {
    forall k :: 0 <= k < |candidates| ==> Shows(f, s, candidates[k].id, candidates[k].hash)
  }

  /**
   Replacements give a hash that no candidate has, unless the first attempt forgot the hash it was to
   replace and the second was given just that one.
   */
  lemma GivenIsNoCandidate(f: Normalizing, s: Registry, server: string, w: World, candidates: seq<Entry>, tried: seq<nat>,
                           newIds: seq<string>, k: nat)
    requires Normalizer(f) && WellFormed(s.entries) && |newIds| == MAX_REPLACEMENTS && NewIds(s.entries, newIds)
    requires AllShow(f, s, candidates) && Distinct(candidates) && k < |candidates|
    requires 0 < |tried| <= MAX_REPLACEMENTS && Below(tried, |candidates|)
    requires var attempts := AttemptsOf(w, candidates, tried, newIds);
             AllFailed(f, s, server, attempts[..|tried| - 1]) && LastResult(f, s, server, attempts).Success?
    ensures candidates[k].hash == LastResult(f, s, server, AttemptsOf(w, candidates, tried, newIds)).value.hash ==>
              |tried| == 2 && k == tried[0] && Forgets(f, s, candidates[k].id, server, w.weather(k))
    ensures w.weather(tried[|tried| - 1]).verdict.Checked? && w.weather(tried[|tried| - 1]).verdict.status == Valid
  {
    hide ReplaceOf, NewId, WellFormed, Visible, Forgets;
    var attempts := AttemptsOf(w, candidates, tried, newIds);
    var c := candidates[k];
    var first := attempts[0];
    var x :| x in s.entries && x.id == c.id && x.hash == c.hash && Visible(f, x, s.profiles);
    assert attempts[..0] == [];
    if |tried| == 1 {
      GivenIsNew(f, s, first.id, server, first.newId, first.w);
      ShownIsNotNew(f, s, x, LastResult(f, s, server, attempts).value.hash);
    } else {
      var s1 := AfterAttempts(f, s, server, attempts[..1]);
      assert attempts[..1][..0] == [] && attempts[..1][..0 + 1] == attempts[..1];
      assert FailedAt(f, s, server, attempts[..1], 0);
      assert s1 == ReplaceOf(f, s, first.id, server, first.newId, first.w).0;
      ReplaceKeepsIds(f, s, first.id, server, first.newId, first.w, newIds[1]);
      GivenIsNew(f, s1, attempts[1].id, server, attempts[1].newId, attempts[1].w);
      ShowsExactly(f, s, first.id, server, first.newId, first.w, x);
      if Shows(f, s1, x.id, x.hash) {
        var y :| y in s1.entries && y.id == x.id && y.hash == x.hash && Visible(f, y, s1.profiles);
        ShownIsNotNew(f, s1, y, LastResult(f, s, server, attempts).value.hash);
      } else {
        SameCandidate(f, s, candidates, k, tried[0]);
      }
    }
  }

  lemma SameCandidate(f: Normalizing, s: Registry, candidates: seq<Entry>, i: nat, j: nat)
    requires WellFormed(s.entries) && AllShow(f, s, candidates) && Distinct(candidates) && i < |candidates| && j < |candidates|
    ensures candidates[i].id == candidates[j].id ==> i == j
  {
    hide WellFormed, Visible;
    assert Shows(f, s, candidates[i].id, candidates[i].hash) && Shows(f, s, candidates[j].id, candidates[j].hash);
    var x :| x in s.entries && x.id == candidates[i].id && x.hash == candidates[i].hash && Visible(f, x, s.profiles);
    var y :| y in s.entries && y.id == candidates[j].id && y.hash == candidates[j].hash && Visible(f, y, s.profiles);
    SameHash(s.entries, x, y);
  }

  // ---------------------------------------------------------------- the whole check

  function Filtered(s: seq<nat>, w: World, probed: set<nat>): (r: seq<nat>) {
    if s == [] then []
    else Filtered(s[..|s| - 1], w, probed) + (if Confirmed(w, probed, s[|s| - 1]) then [] else [s[|s| - 1]])
  }

  lemma {:induction false} FilteredIsUsable(w: World, n: nat, probed: set<nat>)
    ensures Filtered(Usable(w, n, {}), w, probed) == Usable(w, n, probed)
  {
    hide Confirmed, Below, Usable, Where, Filtered;
    NothingUsable(w);
    if n == 0 {
      NothingFiltered(w, probed);
    } else {
      FilteredIsUsable(w, n - 1, probed);
      UsableStep(w, n, {});
      UsableStep(w, n, probed);
      ConfirmedStays(w, probed, n - 1);
      var before := Usable(w, n - 1, {});
      FilteredStep(before, n - 1, w, probed);
      assert before + [] == before;
    }
  }

  lemma NothingFiltered(w: World, probed: set<nat>)
    ensures Filtered([], w, probed) == []
  {
  }

  lemma FilteredStep(s: seq<nat>, k: nat, w: World, probed: set<nat>)
    ensures Filtered(s + [k], w, probed) == Filtered(s, w, probed) + (if Confirmed(w, probed, k) then [] else [k])
  {
    hide Confirmed;
    assert (s + [k])[..|s|] == s;
  }

  lemma NothingUsable(w: World)
    ensures forall probed :: Usable(w, 0, probed) == []
  {
  }

  lemma UsableStep(w: World, n: nat, probed: set<nat>)
    requires n > 0
    ensures Usable(w, n, probed)
         == Usable(w, n - 1, probed) + (if Confirmed(w, probed, n - 1) then [] else [n - 1])
  {
  }

  lemma ConfirmedStays(w: World, probed: set<nat>, k: nat)
    ensures Confirmed(w, {}, k) ==> Confirmed(w, probed, k)
  {
  }

  lemma IsUsableList(w: World, candidates: seq<Entry>, probed: set<nat>, chosen: seq<nat>)
    requires chosen != [] && Below(chosen, |candidates|)
    requires forall k :: k in chosen ==> !Confirmed(w, probed, k)
    ensures UsableList(w, candidates, probed, HashesOf(At(candidates, chosen)), chosen)
  {
  }

  lemma ValidIsUsable(w: World, n: nat)
    ensures forall k :: k in ValidOnes(w, n) ==> !Confirmed(w, {}, k)
  {
  }

  lemma ProbedIsStale(w: World, n: nat, probed: seq<nat>, i: nat)
    requires probed <= StaleOnes(w, n) && i < |probed|
    ensures probed[i] < n && probed[i] in StaleOnes(w, n) && probed[i] in Members(probed)
    ensures w.probe(probed[i]) != Answered(Invalid) ==> !Confirmed(w, Members(probed), probed[i])
  {
    assert StaleOnes(w, n)[i] == probed[i];
  }

  method KeepUsable(w: World, n: nat, fallback: seq<nat>, probed: set<nat>) returns (usable: seq<nat>)
    requires fallback == Usable(w, n, {})
    ensures usable == Usable(w, n, probed)
  {
    usable := [];
    for i := 0 to |fallback|
      invariant usable == Filtered(fallback[..i], w, probed)
    {
      assert fallback[..i + 1][..i] == fallback[..i];
      if !Confirmed(w, probed, fallback[i]) {
        usable := usable + [fallback[i]];
      }
    }
    assert fallback[..|fallback|] == fallback;
    FilteredIsUsable(w, n, probed);
  }

  /** The list is the candidates at these positions, and none of them is confirmed invalid. */
  ghost predicate UsableList(w: World, candidates: seq<Entry>, probed: set<nat>, list: seq<string>, chosen: seq<nat>) {
    && chosen != [] && Below(chosen, |candidates|)
    && list == HashesOf(At(candidates, chosen))
    && forall i :: 0 <= i < |chosen| ==> !Confirmed(w, probed, chosen[i])
  }

  ghost predicate AllConfirmed(w: World, n: nat, probed: set<nat>) {
    forall k: nat :: k < n ==> Confirmed(w, probed, k)
  }

  /** Candidates are checked at all. */
  predicate Checks(policy: Policy, n: nat) {
    n > 0 && policy.autoCheck && policy.named
  }

  /** A second look at the cache finds a fresh error of a candidate not confirmed invalid. */
  ghost predicate ErrorOnSecondLook(w: World, n: nat) {
    exists k: nat :: k < n && !Confirmed(w, {}, k) && FreshErrorAgain(w, k)
  }

  /** Neither the cache nor the probes settle which candidates to use. */
  ghost predicate Undecided(w: World, policy: Policy, n: nat, probed: seq<nat>) {
    && Checks(policy, n) && ValidOnes(w, n) == [] && !ErrorOnSecondLook(w, n)
    && (probed != [] ==> var answer := w.probe(probed[|probed| - 1]);
                         answer != Answered(Valid) && answer != Answered(Error) && answer != Broken)
  }

  /** After the probes: whatever is not confirmed invalid is used; with nothing left a replacement is tried. */
  method UseOrReplace(w: World, policy: Policy, candidates: seq<Entry>, probed: set<nat>, usable: seq<nat>,
                      store: HashStore, server: string, newIds: seq<string>)
    returns (r: Outcome, tried: seq<nat>)
    requires Distinct(candidates) && usable == Usable(w, |candidates|, probed)
    requires store.Ok() && |newIds| == MAX_REPLACEMENTS && NewIds(store.entries, newIds)
    modifies store
    ensures store.Ok()
    ensures |tried| <= MAX_REPLACEMENTS && Below(tried, |candidates|)
    ensures tried != [] ==> policy.autoReplace && usable == [] && !w.canceledAfterProbes
    ensures w.canceledAfterProbes ==> r == ConnectCanceled
    ensures r == ConnectCanceled ==> w.canceledAfterProbes || (usable == [] && w.canceledAtEnd)
    ensures usable != [] && !w.canceledAfterProbes ==> r == Hashes(HashesOf(At(candidates, usable)))
    ensures usable == [] && !w.canceledAfterProbes ==>
              exists found, lastError ::
                && Went(store.f, Registry(old(store.entries), old(store.profiles)), Registry(store.entries, store.profiles), server,
                        AttemptsOf(w, candidates, tried, newIds), found, lastError)
                && r == AfterTrial(w, found, lastError)
    ensures tried == [] ==> store.entries == old(store.entries) && store.profiles == old(store.profiles)
    ensures tried <= ConfirmedOnes(w, |candidates|, probed) && forall i :: 0 <= i < |tried| ==> !w.lateToReplace(tried[i])
    ensures usable == [] && !w.canceledAfterProbes && policy.autoReplace && !r.Hashes? ==>
              AllTried(w, ConfirmedOnes(w, |candidates|, probed), tried)
  {
    hide Usable, HashesOf, At, Confirmed, AllFailed, LastResult, NewIds, ConfirmedOnes, AllTried;
    tried := [];
    if w.canceledAfterProbes {
      return ConnectCanceled, tried;
    }
    if usable != [] {
      var list := ListOf(candidates, usable);
      return Hashes(list), tried;
    }
    var found, lastError := None, None;
    NothingTried(store.f, Registry(store.entries, store.profiles), server, w, candidates, newIds);
    if policy.autoReplace {
      tried, found, lastError := TryReplace(w, candidates, probed, store, server, newIds);
    }
    if found.None? {
      FailingWent(store.f, Registry(old(store.entries), old(store.profiles)), Registry(store.entries, store.profiles), server,
                  AttemptsOf(w, candidates, tried, newIds), lastError);
    } else {
      lastError := None;
    }
    r := AfterTrial(w, found, lastError);
  }

  lemma FailingWent(f: Normalizing, before: Registry, now: Registry, server: string, attempts: seq<Attempt>, lastError: Option<ReplaceError>)
    requires Failing(f, before, now, server, attempts, lastError)
    ensures Went(f, before, now, server, attempts, None, lastError)
  {
    hide LastResult, AfterAttempts;
    if attempts != [] {
      var init := attempts[..|attempts| - 1];
      forall i | 0 <= i < |init| ensures FailedAt(f, before, server, init, i) {
        assert FailedAt(f, before, server, attempts, i);
        assert init[..i + 1] == attempts[..i + 1];
      }
    }
  }

  /** What the attempts lead to. */
  function AfterTrial(w: World, found: Option<string>, lastError: Option<ReplaceError>): Outcome {
    if found.Some? then Hashes([found.value])
    else if w.canceledAtEnd then ConnectCanceled
    else if w.lateAtEnd then NoneLeft(DeadlinePassed)
    else if lastError.Some? then NoneLeft(ReplacementFailed(lastError.value))
    else NoneLeft(NothingWorks)
  }

  lemma NothingUsableLeft(w: World, n: nat, probed: set<nat>)
    ensures Usable(w, n, probed) == [] <==> AllConfirmed(w, n, probed)
  {
    hide Confirmed;
    if Usable(w, n, probed) != [] {
      assert Usable(w, n, probed)[0] in Usable(w, n, probed);
    }
  }

  lemma SomethingUsable(w: World, candidates: seq<Entry>, probed: set<nat>, list: seq<string>, chosen: seq<nat>)
    requires UsableList(w, candidates, probed, list, chosen)
    ensures !AllConfirmed(w, |candidates|, probed)
  {
    hide Confirmed;
    assert !Confirmed(w, probed, chosen[0]);
  }

  /** All usable candidates, as a list. */
  lemma UsableListOf(w: World, candidates: seq<Entry>, probed: set<nat>)
    requires Distinct(candidates) && Usable(w, |candidates|, probed) != []
    ensures var chosen := Usable(w, |candidates|, probed);
            var list := HashesOf(At(candidates, chosen));
            && UsableList(w, candidates, probed, list, chosen)
            && forall k: nat :: k < |candidates| && Confirmed(w, probed, k) ==> candidates[k].hash !in list
  {
    hide Usable, Confirmed, UsableList;
    var chosen := Usable(w, |candidates|, probed);
    IsUsableList(w, candidates, probed, chosen);
    UsableListIsSafe(w, candidates, probed, HashesOf(At(candidates, chosen)), chosen);
  }

  lemma ErrorsOnSecondLook(w: World, n: nat)
    ensures ErrorOnSecondLook(w, n) <==> exists k :: k in Usable(w, n, {}) && FreshErrorAgain(w, k)
  {
    hide Confirmed, FreshErrorAgain;
  }

  /** Up to the end of the probes: an outcome, or the candidates still usable. */
  method Decide(w: World, policy: Policy, candidates: seq<Entry>)
    returns (r: Option<Outcome>, probed: seq<nat>, usable: seq<nat>)
    requires Distinct(candidates)
    ensures probed <= StaleOnes(w, |candidates|)
    ensures probed != [] ==> Checks(policy, |candidates|) && ValidOnes(w, |candidates|) == []
    ensures r == Some(NoCandidates) <==> candidates == []
    ensures candidates != [] && !Checks(policy, |candidates|) ==> r == Some(Hashes(HashesOf(candidates)))
    ensures r.Some? ==> r.value.Hashes? || r.value == NoCandidates || r.value == ProbeFailed
    ensures r.Some? && r.value.Hashes? && Checks(policy, |candidates|) ==>
              exists chosen :: UsableList(w, candidates, Members(probed), r.value.list, chosen)
    ensures Checks(policy, |candidates|) && ValidOnes(w, |candidates|) != [] ==>
              probed == [] && r == Some(Hashes(HashesOf(At(candidates, ValidOnes(w, |candidates|)))))
    ensures Checks(policy, |candidates|) && ValidOnes(w, |candidates|) == [] && ErrorOnSecondLook(w, |candidates|) ==>
              probed == [] && r == Some(Hashes(HashesOf(At(candidates, Usable(w, |candidates|, {})))))
    ensures Checks(policy, |candidates|) && ValidOnes(w, |candidates|) == [] && !ErrorOnSecondLook(w, |candidates|) ==>
              ProbesMade(w, StaleOnes(w, |candidates|), probed)
    ensures SettledBy(w, probed) ==> r == Some(Hashes([candidates[probed[|probed| - 1]].hash]))
    ensures probed != [] && w.probe(probed[|probed| - 1]) == Answered(Error) ==>
              r == Some(Hashes(HashesOf(At(candidates, Usable(w, |candidates|, Members(probed))))))
    ensures r == Some(ProbeFailed) <==> probed != [] && w.probe(probed[|probed| - 1]) == Broken
    ensures r.None? <==> Undecided(w, policy, |candidates|, probed)
    ensures r.None? ==> usable == Usable(w, |candidates|, Members(probed))
  {
    hide Unique, Filtered, Usable, ValidOnes, StaleOnes, Confirmed, FreshErrorAgain, HashesOf, At, UsableList, Passed, ErrorOnSecondLook, ProbesMade;
    r, probed, usable := None, [], [];
    var n := |candidates|;
    if n == 0 {
      return Some(NoCandidates), probed, usable;
    }
    if !policy.autoCheck || !policy.named {
      var all := seq(n, i => i);
      var list := ListOf(candidates, all);
      assert At(candidates, all) == candidates;
      return Some(Hashes(list)), probed, usable;
    }
    var valid, fallback, stale := Classify(w, n);
    if valid != [] {
      var list := ListOf(candidates, valid);
      ValidIsUsable(w, n);
      IsUsableList(w, candidates, {}, valid);
      assert Members(probed) == {};
      return Some(Hashes(list)), probed, usable;
    }
    for i := 0 to |fallback|
      invariant forall j :: 0 <= j < i ==> !FreshErrorAgain(w, fallback[j])
    {
      if FreshErrorAgain(w, fallback[i]) {
        ErrorsOnSecondLook(w, n);
        assert fallback[i] in fallback;
        var list := ListOf(candidates, fallback);
        IsUsableList(w, candidates, {}, fallback);
        assert Members(probed) == {};
        return Some(Hashes(list)), probed, usable;
      }
    }
    ErrorsOnSecondLook(w, n);
    assert forall k :: k in fallback ==> !FreshErrorAgain(w, k);
    var stop;
    probed, stop := ProbeStale(w, stale);
    match stop {
      case GotValid(at) =>
        ProbedIsStale(w, n, probed, |probed| - 1);
        var list := ListOf(candidates, [at]);
        IsUsableList(w, candidates, Members(probed), [at]);
        assert list == [candidates[at].hash];
        return Some(Hashes(list)), probed, usable;
      case GotBroken => return Some(ProbeFailed), probed, usable;
      case _ =>
    }
    usable := KeepUsable(w, n, fallback, Members(probed));
    if stop == GotError {
      var list := ListOf(candidates, usable);
      ProbedIsStale(w, n, probed, |probed| - 1);
      assert probed[|probed| - 1] in usable;
      IsUsableList(w, candidates, Members(probed), usable);
      return Some(Hashes(list)), probed, usable;
    }
    r := None;
  }

  /** The list is one hash, from a replacement: the last attempt gave it and the earlier ones failed. */
  ghost predicate GivenByReplacement(f: Normalizing, s: Registry, server: string, attempts: seq<Attempt>, list: seq<string>) {
    && attempts != [] && AllFailed(f, s, server, attempts[..|attempts| - 1])
    && LastResult(f, s, server, attempts).Success? && list == [LastResult(f, s, server, attempts).value.hash]
  }

  method Prepare(w: World, policy: Policy, candidates: seq<Entry>, store: HashStore, server: string, newIds: seq<string>)
    returns (r: Outcome, probed: seq<nat>, tried: seq<nat>)
    requires Distinct(candidates)
    requires store.Ok() && |newIds| == MAX_REPLACEMENTS && NewIds(store.entries, newIds)
    requires Checks(policy, |candidates|) ==> AllShow(store.f, Registry(store.entries, store.profiles), candidates)
    modifies store
    ensures store.Ok()
    // What is asked of the outside.
    ensures probed <= StaleOnes(w, |candidates|)
    ensures probed != [] ==> Checks(policy, |candidates|) && ValidOnes(w, |candidates|) == []
    ensures |tried| <= MAX_REPLACEMENTS && Below(tried, |candidates|)
    ensures tried != [] ==> policy.autoReplace && AllConfirmed(w, |candidates|, Members(probed))
    ensures tried == [] ==> store.entries == old(store.entries) && store.profiles == old(store.profiles)
    // What is given back.
    ensures r == NoCandidates <==> candidates == []
    ensures candidates != [] && !Checks(policy, |candidates|) ==> r == Hashes(HashesOf(candidates))
    ensures r.Hashes? && Checks(policy, |candidates|) ==>
              || (exists chosen :: UsableList(w, candidates, Members(probed), r.list, chosen))
              || (AllConfirmed(w, |candidates|, Members(probed))
                  && GivenByReplacement(store.f, Registry(old(store.entries), old(store.profiles)), server,
                                        AttemptsOf(w, candidates, tried, newIds), r.list)
                  && w.weather(tried[|tried| - 1]).verdict.Checked? && w.weather(tried[|tried| - 1]).verdict.status == Valid)
    ensures r.Hashes? && Checks(policy, |candidates|) ==>
              forall k: nat :: k < |candidates| && Confirmed(w, Members(probed), k) && candidates[k].hash in r.list ==>
                |tried| == 2 && k == tried[0]
                && Forgets(store.f, Registry(old(store.entries), old(store.profiles)), candidates[k].id, server, w.weather(k))
    ensures Checks(policy, |candidates|) && ValidOnes(w, |candidates|) != [] ==>
              probed == [] && r == Hashes(HashesOf(At(candidates, ValidOnes(w, |candidates|))))
    ensures (Checks(policy, |candidates|) && ValidOnes(w, |candidates|) == [] && r.Hashes? && !SettledBy(w, probed) && tried == []) ==>
              r.list == HashesOf(At(candidates, Usable(w, |candidates|, Members(probed))))
    ensures Checks(policy, |candidates|) && ValidOnes(w, |candidates|) == [] && ErrorOnSecondLook(w, |candidates|) ==>
              probed == [] && r == Hashes(HashesOf(At(candidates, Usable(w, |candidates|, {}))))
    // What the probes decide.
    ensures Checks(policy, |candidates|) && ValidOnes(w, |candidates|) == [] && !ErrorOnSecondLook(w, |candidates|) ==>
              ProbesMade(w, StaleOnes(w, |candidates|), probed)
    ensures probed != [] && w.probe(probed[|probed| - 1]) == Answered(Valid) ==> r == Hashes([candidates[probed[|probed| - 1]].hash])
    ensures probed != [] && w.probe(probed[|probed| - 1]) == Answered(Error) ==>
              r == Hashes(HashesOf(At(candidates, Usable(w, |candidates|, Members(probed)))))
    ensures r == ProbeFailed <==> probed != [] && w.probe(probed[|probed| - 1]) == Broken
    // What is done when they decide nothing.
    ensures Undecided(w, policy, |candidates|, probed) && w.canceledAfterProbes ==> r == ConnectCanceled && tried == []
    ensures Undecided(w, policy, |candidates|, probed) && !w.canceledAfterProbes && Usable(w, |candidates|, Members(probed)) != [] ==>
              r == Hashes(HashesOf(At(candidates, Usable(w, |candidates|, Members(probed))))) && tried == []
    ensures Undecided(w, policy, |candidates|, probed) && !w.canceledAfterProbes && Usable(w, |candidates|, Members(probed)) == [] ==>
              var attempts := AttemptsOf(w, candidates, tried, newIds);
              && tried <= ConfirmedOnes(w, |candidates|, Members(probed))
              && (forall i :: 0 <= i < |tried| ==> !w.lateToReplace(tried[i]))
              && (policy.autoReplace && !r.Hashes? ==> AllTried(w, ConfirmedOnes(w, |candidates|, Members(probed)), tried))
              && var s := Registry(old(store.entries), old(store.profiles));
                 && Registry(store.entries, store.profiles) == AfterAttempts(store.f, s, server, attempts)
                 && r == if tried != [] && LastResult(store.f, s, server, attempts).Success?
                           then Hashes([LastResult(store.f, s, server, attempts).value.hash])
                         else if w.canceledAtEnd then ConnectCanceled
                         else if w.lateAtEnd then NoneLeft(DeadlinePassed)
                         else if tried != [] then NoneLeft(ReplacementFailed(LastResult(store.f, s, server, attempts).error))
                         else NoneLeft(NothingWorks)
    // Only then is there no hash to give.
    ensures r.NoneLeft? ==> AllConfirmed(w, |candidates|, Members(probed))
    ensures r.NoneLeft? ==> AllFailed(store.f, Registry(old(store.entries), old(store.profiles)), server, AttemptsOf(w, candidates, tried, newIds))
    ensures r == NoneLeft(DeadlinePassed) ==> w.lateAtEnd
    ensures r == NoneLeft(NothingWorks) ==> tried == []
    ensures r == ConnectCanceled ==> w.canceledAfterProbes || w.canceledAtEnd
    ensures candidates != [] && !AllConfirmed(w, |candidates|, Members(probed)) ==>
              r.Hashes? || r == ProbeFailed || (r == ConnectCanceled && w.canceledAfterProbes)
  {
    hide Unique, Filtered, Usable, ValidOnes, StaleOnes, Confirmed, FreshErrorAgain, HashesOf, At, UsableList, AllConfirmed, AllFailed,
         LastResult, AttemptsOf, Forgets, AllShow, NewIds, AfterAttempts, ConfirmedOnes, AllTried, ErrorOnSecondLook, ProbesMade;
    var decided, usable;
    decided, probed, usable := Decide(w, policy, candidates);
    tried := [];
    ghost var before := Registry(store.entries, store.profiles);
    if decided.Some? {
      r := decided.value;
      assert Members([]) == {};
      if r.Hashes? && Checks(policy, |candidates|) {
        ghost var chosen :| UsableList(w, candidates, Members(probed), r.list, chosen);
        UsableListIsSafe(w, candidates, Members(probed), r.list, chosen);
        SomethingUsable(w, candidates, Members(probed), r.list, chosen);
      }
      return;
    }
    NothingUsableLeft(w, |candidates|, Members(probed));
    r, tried := UseOrReplace(w, policy, candidates, Members(probed), usable, store, server, newIds);
    if usable != [] {
      UsableListOf(w, candidates, Members(probed));
    } else if !w.canceledAfterProbes {
      ghost var found, lastError :| Went(store.f, before, Registry(store.entries, store.profiles), server,
                                         AttemptsOf(w, candidates, tried, newIds), found, lastError)
                                    && r == AfterTrial(w, found, lastError);
      WentSafely(store.f, before, Registry(store.entries, store.profiles), server, w, candidates, tried, newIds, found, lastError);
    }
  }

  /** What candidateVKHashes returns meets Prepare's requirement. */
  lemma ChosenAreDistinct(f: Normalizing, entries: seq<Entry>, hashes: seq<string>, mode: Mode)
    requires WellFormed(entries) && Registered(f, entries, hashes)
    ensures Distinct(Chosen(f, entries, hashes, mode))
  {
    ChosenMeaning(f, entries, hashes, mode);
  }

  /** After the connection's own hashes have been saved with the profile, every candidate shows. */
  lemma ChosenShow(f: Normalizing, s: Registry, server: string, mode: Mode)
    requires WellFormed(s.entries) && server in s.profiles && Registered(f, s.entries, s.profiles[server].hashes)
    ensures AllShow(f, s, Chosen(f, s.entries, s.profiles[server].hashes, mode))
  {
    hide Chosen, Registered, WellFormed;
    var hashes := s.profiles[server].hashes;
    var chosen := Chosen(f, s.entries, hashes, mode);
    ChosenMeaning(f, s.entries, hashes, mode);
    forall k | 0 <= k < |chosen| ensures Shows(f, s, chosen[k].id, chosen[k].hash) {
      var e := chosen[k];
      assert e in s.entries && Eligible(f, hashes, mode, e);
      UnusedIsUnlisted(f, e, s.profiles);
    }
  }

  /** A usable list repeats no hash, and no hash in it belongs to a candidate confirmed invalid. */
  lemma UsableListIsSafe(w: World, candidates: seq<Entry>, probed: set<nat>, list: seq<string>, chosen: seq<nat>)
    requires Distinct(candidates) && UsableList(w, candidates, probed, list, chosen)
    ensures list != [] && forall i, j :: 0 <= i < j < |list| ==> list[i] != list[j]
    ensures forall k: nat :: k < |candidates| && Confirmed(w, probed, k) ==> candidates[k].hash !in list
  {
    hide Confirmed;
    forall k: nat | k < |candidates| && Confirmed(w, probed, k) ensures candidates[k].hash !in list {
      forall i | 0 <= i < |list| ensures list[i] != candidates[k].hash {
        assert chosen[i] != k;
      }
    }
  }

  /** What the attempts mean for the candidates. */
  lemma WentSafely(f: Normalizing, before: Registry, after: Registry, server: string, w: World, candidates: seq<Entry>,
                   tried: seq<nat>, newIds: seq<string>, found: Option<string>, lastError: Option<ReplaceError>)
    requires Normalizer(f) && WellFormed(before.entries) && |newIds| == MAX_REPLACEMENTS && NewIds(before.entries, newIds)
    requires AllShow(f, before, candidates) && Distinct(candidates)
    requires |tried| <= MAX_REPLACEMENTS && Below(tried, |candidates|)
    requires Went(f, before, after, server, AttemptsOf(w, candidates, tried, newIds), found, lastError)
    ensures found.Some? ==>
              && GivenByReplacement(f, before, server, AttemptsOf(w, candidates, tried, newIds), [found.value])
              && w.weather(tried[|tried| - 1]).verdict.Checked? && w.weather(tried[|tried| - 1]).verdict.status == Valid
              && forall k: nat :: k < |candidates| && candidates[k].hash == found.value ==>
                   |tried| == 2 && k == tried[0] && Forgets(f, before, candidates[k].id, server, w.weather(k))
    ensures found.None? ==> AllFailed(f, before, server, AttemptsOf(w, candidates, tried, newIds))
    ensures lastError.None? && found.None? ==> tried == []
  {
    hide LastResult, AfterAttempts, Forgets, AllShow, NewIds, WellFormed;
    var attempts := AttemptsOf(w, candidates, tried, newIds);
    if found.Some? {
      var last := LastResult(f, before, server, attempts);
      GivenIsNoCandidate(f, before, server, w, candidates, tried, newIds, tried[0]);
      forall k: nat | k < |candidates| && candidates[k].hash == found.value
        ensures |tried| == 2 && k == tried[0] && Forgets(f, before, candidates[k].id, server, w.weather(k))
      {
        GivenIsNoCandidate(f, before, server, w, candidates, tried, newIds, k);
      }
    } else if tried != [] {
      assert attempts[..|attempts|] == attempts;
      assert attempts == attempts[..|attempts| - 1] + [attempts[|attempts| - 1]];
      AttemptAdded(f, before, server, attempts[..|attempts| - 1], attempts);
    }
  }
}
