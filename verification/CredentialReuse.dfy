/**
 What the credential cache is for (core/vk_auth.go, getVkCredsCached): a triple that one stream has
 fetched answers the other streams of its cache, and a stream that finds nothing fetches and stores.
 */
module CredentialReuse {
  import opened CredentialCache
  import opened Wrappers

  lemma {:induction false} RunsAppend(s: State, a: seq<Event>, b: seq<Event>)
    requires Runs(s, a + b)
    ensures Runs(s, a) && Runs(Final(s, a), b) && Final(s, a + b) == Final(Final(s, a), b)
    decreases |a|
  {
    if a == [] {
      assert a + b == b;
    } else {
      hide Enabled, Apply;
      assert (a + b)[1..] == a[1..] + b;
      RunsAppend(Apply(s, a[0]), a[1..], b);
    }
  }

  lemma RunOne(s: State, e: Event)
    ensures Runs(s, [e]) <==> Enabled(s, e)
    ensures Enabled(s, e) ==> Final(s, [e]) == Apply(s, e)
  {
    if Enabled(s, e) {
      assert [e][1..] == [];
    }
  }

  // ---------------------------------------------------------------- who asks for what

  /** Thread t asks for the link of request t, in the cache of its ten streams. */
  ghost predicate Names(s: State, requests: seq<(nat, nat)>) {
    && |s.threads| == |requests|
    && forall t :: 0 <= t < |requests| ==> s.threads[t].cache == requests[t].0 / 10 && s.threads[t].link == requests[t].1
  }

  lemma {:induction false} RunKeepsNames(s: State, events: seq<Event>, requests: seq<(nat, nat)>)
    requires Names(s, requests) && Runs(s, events)
    ensures Names(Final(s, events), requests)
    decreases |events|
  {
    if events != [] {
      RunKeepsNames(Apply(s, events[0]), events[1..], requests);
    }
  }

  lemma Reached(requests: seq<(nat, nat)>, clock: int, events: seq<Event>)
    requires Runs(Start(requests, clock), events)
    ensures Inv(Final(Start(requests, clock), events)) && Names(Final(Start(requests, clock), events), requests)
  {
    StartInv(requests, clock);
    RunKeepsInv(Start(requests, clock), events);
    RunKeepsNames(Start(requests, clock), events, requests);
  }

  // ---------------------------------------------------------------- from the upstream answer to the cache

  /** Thread t has its answer: its fetch is over and returned so many addresses. */
  ghost predicate Answered(s: State, t: nat, addrs: nat) {
    && t < |s.threads|
    && var th := s.threads[t];
       && (th.stage == Leaving || th.stage == Storing || th.stage == Unlocking || th.stage == Done)
       && th.fetch < |s.fetches|
       && s.fetches[th.fetch].maker == t && s.fetches[th.fetch].ended.Some? && s.fetches[th.fetch].addrs == addrs
  }

  lemma AnswerArrives(s: State, t: nat, ok: bool, addrs: nat)
    requires Inv(s) && Enabled(s, Run(t, FetchEnds(ok, addrs)))
    ensures var u := Apply(s, Run(t, FetchEnds(ok, addrs)));
            && Answered(u, t, addrs) && u.threads[t].stage == Leaving
            && u.threads[t].reply == if ok then Fetched(u.threads[t].fetch) else Failed
  {
    assert ThreadOk(s, t);
  }

  lemma AnsweredStays(s: State, e: Event, t: nat, addrs: nat)
    requires Inv(s) && Enabled(s, e) && Answered(s, t, addrs)
    ensures Answered(Apply(s, e), t, addrs) && Apply(s, e).threads[t].fetch == s.threads[t].fetch
  {
    if e.Run? { assert ThreadOk(s, e.t); }
  }

  lemma {:induction false} AnsweredThroughout(s: State, events: seq<Event>, t: nat, addrs: nat)
    requires Inv(s) && Runs(s, events) && Answered(s, t, addrs)
    ensures Answered(Final(s, events), t, addrs)
    decreases |events|
  {
    if events != [] {
      StepKeepsInv(s, events[0]);
      AnsweredStays(s, events[0], t, addrs);
      AnsweredThroughout(Apply(s, events[0]), events[1..], t, addrs);
    }
  }

  /** What a stream stores is the answer that its own request got, under its own link and the moment
      of storing. */
  lemma AnswerIsStored(requests: seq<(nat, nat)>, clock: int, before: seq<Event>, addrs: nat, meanwhile: seq<Event>, t: nat)
    requires t < |requests|
    requires Runs(Start(requests, clock), before + [Run(t, FetchEnds(true, addrs))] + meanwhile + [Run(t, Store)])
    ensures var upTo := before + [Run(t, FetchEnds(true, addrs))] + meanwhile;
            Runs(Start(requests, clock), upTo)
            && var s := Final(Start(requests, clock), upTo);
               var u := Final(Start(requests, clock), upTo + [Run(t, Store)]);
               && |s.threads| == |requests| && s.threads[t].fetch < |s.fetches| && s.fetches[s.threads[t].fetch].maker == t
               && CacheOf(u, requests[t].0 / 10).entry == Some(Entry(s.threads[t].fetch, requests[t].1, addrs, s.clock))
  {
    var s0 := Start(requests, clock);
    var asked := before + [Run(t, FetchEnds(true, addrs))];
    RunsAppend(s0, asked + meanwhile, [Run(t, Store)]);
    RunsAppend(s0, asked, meanwhile);
    RunsAppend(s0, before, [Run(t, FetchEnds(true, addrs))]);
    Reached(requests, clock, before);
    Reached(requests, clock, asked);
    Reached(requests, clock, asked + meanwhile);
    RunOne(Final(s0, before), Run(t, FetchEnds(true, addrs)));
    AnswerArrives(Final(s0, before), t, true, addrs);
    AnsweredThroughout(Final(s0, asked), meanwhile, t, addrs);
    var s := Final(s0, asked + meanwhile);
    RunOne(s, Run(t, Store));
    StoreFillsCache(s, t);
  }

  lemma StoreFillsCache(s: State, t: nat)
    requires Inv(s) && Enabled(s, Run(t, Store))
    ensures var th := s.threads[t];
            && th.fetch < |s.fetches|
            && CacheOf(Apply(s, Run(t, Store)), th.cache).entry
            == Some(Entry(th.fetch, th.link, s.fetches[th.fetch].addrs, s.clock))
  {
  }

  // ---------------------------------------------------------------- from the cache to other streams

  /** The event neither invalidates the cache nor stores into it. */
  predicate LeavesAlone(e: Event, requests: seq<(nat, nat)>, id: nat) {
    match e
    case Invalidate(c) => c != id
    case Run(t, step) => step == Store ==> t >= |requests| || requests[t].0 / 10 != id
    case _ => true
  }

  lemma EntryStays(s: State, e: Event, requests: seq<(nat, nat)>, id: nat)
    requires Names(s, requests) && Enabled(s, e) && LeavesAlone(e, requests, id)
    ensures CacheOf(Apply(s, e), id).entry == CacheOf(s, id).entry
  {
  }

  lemma {:induction false} EntryThroughout(s: State, events: seq<Event>, requests: seq<(nat, nat)>, id: nat)
    requires Names(s, requests) && Runs(s, events)
    requires forall i :: 0 <= i < |events| ==> LeavesAlone(events[i], requests, id)
    ensures CacheOf(Final(s, events), id).entry == CacheOf(s, id).entry
    decreases |events|
  {
    if events != [] {
      EntryStays(s, events[0], requests, id);
      var rest := events[1..];
      assert forall i :: 0 <= i < |rest| ==> rest[i] == events[i + 1];
      EntryThroughout(Apply(s, events[0]), rest, requests, id);
    }
  }

  /** From a Store on, the cache holds the stored triple until it is invalidated or stored into again. */
  lemma StoredStays(requests: seq<(nat, nat)>, clock: int, before: seq<Event>, between: seq<Event>, t: nat)
    requires t < |requests| && Runs(Start(requests, clock), before + [Run(t, Store)] + between)
    requires forall i :: 0 <= i < |between| ==> LeavesAlone(between[i], requests, requests[t].0 / 10)
    ensures Runs(Start(requests, clock), before)
            && var s := Final(Start(requests, clock), before);
               && |s.threads| == |requests| && s.threads[t].fetch < |s.fetches|
               && CacheOf(Final(Start(requests, clock), before + [Run(t, Store)] + between), requests[t].0 / 10).entry
               == Some(Entry(s.threads[t].fetch, requests[t].1, s.fetches[s.threads[t].fetch].addrs, s.clock))
  {
    var s0 := Start(requests, clock);
    RunsAppend(s0, before + [Run(t, Store)], between);
    RunsAppend(s0, before, [Run(t, Store)]);
    Reached(requests, clock, before);
    Reached(requests, clock, before + [Run(t, Store)]);
    RunOne(Final(s0, before), Run(t, Store));
    StoreFillsCache(Final(s0, before), t);
    EntryThroughout(Final(s0, before + [Run(t, Store)]), between, requests, requests[t].0 / 10);
  }

  lemma LookFindsEntry(s: State, u: nat, check: Step, entry: Entry)
    requires Enabled(s, Run(u, check)) && (check == ReadCheck || (check == Recheck && s.threads[u].live))
    requires CacheOf(s, s.threads[u].cache).entry == Some(entry)
    requires entry.link == s.threads[u].link && s.clock < entry.storedAt + 540000 && entry.addrs > 0
    ensures var after := Apply(s, Run(u, check)).threads[u];
            after.reply == FromCache(entry, s.clock) && after.stage == if check == ReadCheck then Done else Unlocking
  {
  }

  /**
   A stored triple answers every stream of the same ten that asks for the same link within 540 s of the
   storing, at its first look or, once it has the lock, at its second: it gets exactly the stored triple,
   and goes on to return it without a request of its own.
   */
  lemma StoredIsReused(requests: seq<(nat, nat)>, clock: int, before: seq<Event>, between: seq<Event>, t: nat, u: nat, check: Step)
    requires t < |requests| && u < |requests| && requests[u].0 / 10 == requests[t].0 / 10 && requests[u].1 == requests[t].1
    requires Runs(Start(requests, clock), before + [Run(t, Store)] + between + [Run(u, check)])
    requires forall i :: 0 <= i < |between| ==> LeavesAlone(between[i], requests, requests[t].0 / 10)
    ensures var upTo := before + [Run(t, Store)] + between;
            Runs(Start(requests, clock), before) && Runs(Start(requests, clock), upTo)
            && var s, now := Final(Start(requests, clock), before), Final(Start(requests, clock), upTo);
               var after := Final(Start(requests, clock), upTo + [Run(u, check)]);
               && |s.threads| == |now.threads| == |after.threads| == |requests| && s.threads[t].fetch < |s.fetches|
               && var f := s.threads[t].fetch;
                  (check == ReadCheck || (check == Recheck && now.threads[u].live))
                  && now.clock < s.clock + 540000 && s.fetches[f].addrs > 0 ==>
                    && after.threads[u].reply == FromCache(Entry(f, requests[t].1, s.fetches[f].addrs, s.clock), now.clock)
                    && after.threads[u].stage == (if check == ReadCheck then Done else Unlocking)
                    && after.fetches == now.fetches
  {
    hide Inv, Apply, CacheOf, LeavesAlone;
    var s0 := Start(requests, clock);
    var upTo := before + [Run(t, Store)] + between;
    RunsAppend(s0, upTo, [Run(u, check)]);
    RunsAppend(s0, before + [Run(t, Store)], between);
    StoredStays(requests, clock, before, between, t);
    Reached(requests, clock, before);
    Reached(requests, clock, upTo);
    Reached(requests, clock, upTo + [Run(u, check)]);
    var s, now := Final(s0, before), Final(s0, upTo);
    RunOne(now, Run(u, check));
    var f := s.threads[t].fetch;
    var entry := Entry(f, requests[t].1, s.fetches[f].addrs, s.clock);
    if (check == ReadCheck || (check == Recheck && now.threads[u].live)) && now.clock < s.clock + 540000 && s.fetches[f].addrs > 0 {
      LookFindsEntry(now, u, check, entry);
      LookFetchesNothing(now, u, check);
    }
  }

  lemma LookFetchesNothing(s: State, u: nat, check: Step)
    requires Enabled(s, Run(u, check)) && (check == ReadCheck || check == Recheck)
    ensures Apply(s, Run(u, check)).fetches == s.fetches
  {
  }

  // ---------------------------------------------------------------- a stream that finds nothing

  lemma {:induction false} RunsJoin(s: State, a: seq<Event>, b: seq<Event>)
    requires Runs(s, a) && Runs(Final(s, a), b)
    ensures Runs(s, a + b) && Final(s, a + b) == Final(Final(s, a), b)
    decreases |a|
  {
    if a == [] {
      assert a + b == b;
    } else {
      hide Enabled, Apply;
      assert (a + b)[1..] == a[1..] + b;
      RunsJoin(Apply(s, a[0]), a[1..], b);
    }
  }

  lemma RunNext(s: State, a: seq<Event>, e: Event)
    requires Runs(s, a) && Enabled(Final(s, a), e)
    ensures Runs(s, a + [e]) && Final(s, a + [e]) == Apply(Final(s, a), e)
  {
    RunOne(Final(s, a), e);
    RunsJoin(s, a, [e]);
  }

  /** The cache has no triple for the link that is less than 540 s old and has an address. */
  predicate NothingFor(c: Cache, link: nat, now: int) {
    match c.entry
    case None => true
    case Some(e) => e.link != link || now >= e.storedAt + 540000 || e.addrs == 0
  }

  /** The moment of a request that comes at least three seconds and the jitter after the last one. */
  function FetchTime(s: State, jitter: nat): int {
    if s.lastFetch.Some? && s.clock < s.lastFetch.value + 3000 + jitter then s.lastFetch.value + 3000 + jitter else s.clock
  }

  function ToGate(t: nat): seq<Event> {
    [Run(t, Arrive)] + [Run(t, ReadCheck)] + [Run(t, TakeLock)] + [Run(t, Recheck)] + [Run(t, TakeGate)]
  }

  function ToFetch(s: State, t: nat, jitter: nat): seq<Event> {
    if FetchTime(s, jitter) == s.clock then [Run(t, Throttle(jitter))]
    else [Run(t, Throttle(jitter))] + [Tick(FetchTime(s, jitter) - s.clock)] + [Run(t, Wake)]
  }

  function ToEnd(t: nat, addrs: nat): seq<Event> {
    [Run(t, FetchEnds(true, addrs))] + [Run(t, ReleaseGate)] + [Run(t, Store)] + [Run(t, Unlock)]
  }

  /** A live stream that arrives when the gate and its cache's lock are free. */
  ghost predicate CanStart(s: State, t: nat) {
    && t < |s.threads| && s.threads[t].live && s.threads[t].stage == Arriving && s.gate == None
    && CacheOf(s, s.threads[t].cache).writer == None && NothingFor(CacheOf(s, s.threads[t].cache), s.threads[t].link, s.clock)
  }

  lemma GateIsReached(s: State, t: nat)
    requires CanStart(s, t)
    ensures Runs(s, ToGate(t))
    ensures var th := s.threads[t];
            Final(s, ToGate(t))
            == SetThread(SetCache(s, th.cache, CacheOf(s, th.cache).(writer := Some(t))).(gate := Some(t)), t, th.(stage := Gated))
  {
    var th := s.threads[t];
    var es := [Run(t, Arrive)];
    RunOne(s, Run(t, Arrive));
    RunNext(s, es, Run(t, ReadCheck));
    var s2 := Final(s, es + [Run(t, ReadCheck)]);
    assert s2 == SetThread(s, t, th.(stage := LockWait));
    RunNext(s, es + [Run(t, ReadCheck)], Run(t, TakeLock));
    RunNext(s, es + [Run(t, ReadCheck)] + [Run(t, TakeLock)], Run(t, Recheck));
    RunNext(s, es + [Run(t, ReadCheck)] + [Run(t, TakeLock)] + [Run(t, Recheck)], Run(t, TakeGate));
  }

  lemma FetchIsReached(s: State, t: nat, jitter: nat)
    requires t < |s.threads| && s.threads[t].live && s.threads[t].stage == Gated && jitter < 3000
    ensures Runs(s, ToFetch(s, t, jitter))
    ensures var u := Final(s, ToFetch(s, t, jitter));
            && |u.threads| == |s.threads| && u.clock == FetchTime(s, jitter) && u.caches == s.caches && u.gate == s.gate
            && u.fetches == s.fetches + [Fetch(t, s.threads[t].link, u.clock, None, 0)]
            && u.threads[t].stage == Fetching && u.threads[t].fetch == |s.fetches|
            && u.threads[t].link == s.threads[t].link && u.threads[t].cache == s.threads[t].cache
  {
    RunOne(s, Run(t, Throttle(jitter)));
    if FetchTime(s, jitter) != s.clock {
      var d := FetchTime(s, jitter) - s.clock;
      RunNext(s, [Run(t, Throttle(jitter))], Tick(d));
      RunNext(s, [Run(t, Throttle(jitter))] + [Tick(d)], Run(t, Wake));
    }
  }

  lemma EndIsReached(s: State, t: nat, addrs: nat)
    requires t < |s.threads| && s.threads[t].stage == Fetching && s.threads[t].fetch < |s.fetches| && s.gate == Some(t)
    ensures Runs(s, ToEnd(t, addrs))
    ensures var th := s.threads[t];
            var u := Final(s, ToEnd(t, addrs));
            && |u.threads| == |s.threads| && u.threads[t].stage == Done && u.threads[t].reply == Fetched(th.fetch)
            && u.gate == None && u.clock == s.clock && u.lastFetch == Some(s.clock)
            && u.fetches == s.fetches[th.fetch := s.fetches[th.fetch].(ended := Some(s.clock), addrs := addrs)]
            && CacheOf(u, th.cache) == Cache(Some(Entry(th.fetch, th.link, addrs, s.clock)), None)
  {
    var es := [Run(t, FetchEnds(true, addrs))];
    RunOne(s, Run(t, FetchEnds(true, addrs)));
    RunNext(s, es, Run(t, ReleaseGate));
    RunNext(s, es + [Run(t, ReleaseGate)], Run(t, Store));
    RunNext(s, es + [Run(t, ReleaseGate)] + [Run(t, Store)], Run(t, Unlock));
  }

  /**
   A live stream that finds the gate and the lock free and nothing for its link can go all the way on its
   own: it waits no longer than three seconds and the jitter after the last request, makes one request,
   returns what VK answered and leaves that in the cache for the others, with gate and lock free again.
   */
  lemma StreamServesItself(s: State, t: nat, jitter: nat, addrs: nat)
    requires CanStart(s, t) && jitter < 3000
    ensures var es := ToGate(t) + ToFetch(s, t, jitter) + ToEnd(t, addrs);
            Runs(s, es)
            && var u, now, link := Final(s, es), FetchTime(s, jitter), s.threads[t].link;
               && |u.threads| == |s.threads| && u.threads[t].stage == Done && u.threads[t].reply == Fetched(|s.fetches|)
               && u.fetches == s.fetches + [Fetch(t, link, now, Some(now), addrs)]
               && u.clock == now && u.lastFetch == Some(now) && u.gate == None
               && CacheOf(u, s.threads[t].cache) == Cache(Some(Entry(|s.fetches|, link, addrs, now)), None)
  {
    hide CacheOf, Apply, Enabled;
    GateIsReached(s, t);
    var gated := Final(s, ToGate(t));
    FetchIsReached(gated, t, jitter);
    assert ToFetch(gated, t, jitter) == ToFetch(s, t, jitter);
    var fetching := Final(gated, ToFetch(s, t, jitter));
    EndIsReached(fetching, t, addrs);
    RunsJoin(s, ToGate(t), ToFetch(s, t, jitter));
    RunsJoin(s, ToGate(t) + ToFetch(s, t, jitter), ToEnd(t, addrs));
  }
}
