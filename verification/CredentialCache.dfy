/**
 The credential cache and the upstream request gate (core/vk_auth.go, getVkCredsCached and
 fetchVkCredsSerialized).

 Streams are threads with a program counter.  A cache is shared by the streams of one cache id and
 guarded by a read-write lock; one global gate serialises upstream fetches and spaces them out.
 Times are milliseconds on one clock that never goes back; contexts end at any moment.
 */
module CredentialCache {
  import opened Wrappers

  /** credentialLifetime - cacheSafetyMargin, and the least spacing of upstream fetches. */
  const LIFETIME := 540000
  const MIN_SPACING := 3000
  const STREAMS_PER_CACHE := 10

  /** getCacheID. */
  function CacheID(streamID: nat): nat {
    streamID / STREAMS_PER_CACHE
  }

  /** One upstream request: who made it, for which link, when it started and ended, and how many
      server addresses it returned. */
  datatype Fetch = Fetch(maker: nat, link: nat, started: int, ended: Option<int>, addrs: nat)

  /** Cached credentials: the fetch they came from and when they were stored. */
  datatype Entry = Entry(fetch: nat, link: nat, addrs: nat, storedAt: int)

  /** writer is the thread holding the cache's lock for writing. */
  datatype Cache = Cache(entry: Option<Entry>, writer: Option<nat>)

  /** What a caller gets: nothing, a cached triple read at some moment, or its own fetch's triple. */
  datatype Reply = Failed | FromCache(entry: Entry, at: int) | Fetched(fetch: nat)

  datatype Stage =
    | Arriving | ReadWait | LockWait
    | Checking   // write lock held from here
    | GateWait
    | Gated      // gate held from here
    | Sleeping
    | Fetching
    | Leaving
    | Storing    // gate released
    | Unlocking
    | Done

  datatype Thread = Thread(cache: nat, link: nat, live: bool, stage: Stage, wakeAt: int, fetch: nat, reply: Reply)

  datatype State = State(
    clock: int, lastFetch: Option<int>, gate: Option<nat>,
    caches: map<nat, Cache>, fetches: seq<Fetch>, threads: seq<Thread>)

  /** jitter is the random part of the minimum interval; ok and addrs are the upstream's answer. */
  datatype Step =
    | Arrive | GiveUp | ReadCheck | TakeLock | Recheck | TakeGate | Throttle(jitter: nat) | Wake
    | FetchEnds(ok: bool, addrs: nat) | ReleaseGate | Store | Unlock

  datatype Event = Run(t: nat, step: Step) | ContextEnds(t: nat) | Tick(d: nat) | Invalidate(cache: nat)

  function CacheOf(s: State, id: nat): Cache {
    if id in s.caches then s.caches[id] else Cache(None, None)
  }

  /** The cached triple answers a request for the link now. */
  predicate Usable(c: Cache, link: nat, now: int) {
    c.entry.Some? && c.entry.value.link == link && now < c.entry.value.storedAt + LIFETIME && c.entry.value.addrs > 0
  }

  function Start(requests: seq<(nat, nat)>, clock: int): State {
    State(clock, None, None, map[], [],
      seq(|requests|, i requires 0 <= i < |requests| =>
        Thread(CacheID(requests[i].0), requests[i].1, true, Arriving, 0, 0, Failed)))
  }

  predicate StepEnabled(s: State, th: Thread, step: Step) {
    match step
    case Arrive => th.stage == Arriving
    case GiveUp => (th.stage == ReadWait || th.stage == LockWait || th.stage == GateWait || th.stage == Sleeping) && !th.live
    case ReadCheck => th.stage == ReadWait && CacheOf(s, th.cache).writer == None
    case TakeLock => th.stage == LockWait && CacheOf(s, th.cache).writer == None
    case Recheck => th.stage == Checking
    case TakeGate => th.stage == GateWait && s.gate == None
    case Throttle(jitter) => th.stage == Gated && jitter < 3000
    case Wake => th.stage == Sleeping && s.clock >= th.wakeAt
    case FetchEnds(_, _) => th.stage == Fetching && th.fetch < |s.fetches|
    case ReleaseGate => th.stage == Leaving && s.gate.Some?
    case Store => th.stage == Storing && th.fetch < |s.fetches|
    case Unlock => th.stage == Unlocking
  }

  predicate Enabled(s: State, e: Event) {
    match e
    case Run(t, step) => t < |s.threads| && StepEnabled(s, s.threads[t], step)
    case ContextEnds(t) => t < |s.threads|
    case Tick(_) => true
    case Invalidate(c) => CacheOf(s, c).writer == None
  }

  function SetThread(s: State, t: nat, th: Thread): State
    requires t < |s.threads|
  {
    s.(threads := s.threads[t := th])
  }

  function SetCache(s: State, id: nat, c: Cache): State {
    s.(caches := s.caches[id := c])
  }

  /** fetchVkCreds begins. */
  function BeginFetch(s: State, t: nat): State
    requires t < |s.threads|
  {
    var th := s.threads[t];
    SetThread(s.(fetches := s.fetches + [Fetch(t, th.link, s.clock, None, 0)]), t, th.(stage := Fetching, fetch := |s.fetches|))
  }

  function RunStep(s: State, t: nat, step: Step): State
    requires Enabled(s, Run(t, step))
  {
    var th := s.threads[t];
    var c := CacheOf(s, th.cache);
    match step
    case Arrive => SetThread(s, t, th.(stage := if th.live then ReadWait else Done))
    case GiveUp =>
      SetThread(s, t, th.(stage := if th.stage == GateWait then Unlocking else if th.stage == Sleeping then Leaving else Done))
    case ReadCheck =>
      if Usable(c, th.link, s.clock) then SetThread(s, t, th.(stage := Done, reply := FromCache(c.entry.value, s.clock)))
      else SetThread(s, t, th.(stage := LockWait))
    case TakeLock => SetThread(SetCache(s, th.cache, c.(writer := Some(t))), t, th.(stage := Checking))
    case Recheck =>
      if !th.live then SetThread(s, t, th.(stage := Unlocking))
      else if Usable(c, th.link, s.clock) then SetThread(s, t, th.(stage := Unlocking, reply := FromCache(c.entry.value, s.clock)))
      else SetThread(s, t, th.(stage := GateWait))
    case TakeGate => SetThread(s.(gate := Some(t)), t, th.(stage := Gated))
    case Throttle(jitter) =>
      if !th.live then SetThread(s, t, th.(stage := Leaving))
      else if s.lastFetch.Some? && s.clock - s.lastFetch.value < MIN_SPACING + jitter then
        SetThread(s, t, th.(stage := Sleeping, wakeAt := s.clock + (MIN_SPACING + jitter - (s.clock - s.lastFetch.value))))
      else BeginFetch(s, t)
    case Wake => BeginFetch(s, t)
    case FetchEnds(ok, addrs) =>
      var f := s.fetches[th.fetch].(ended := Some(s.clock), addrs := addrs);
      SetThread(s.(fetches := s.fetches[th.fetch := f], lastFetch := Some(s.clock)), t,
                th.(stage := Leaving, reply := if ok then Fetched(th.fetch) else Failed))
    case ReleaseGate => SetThread(s.(gate := None), t, th.(stage := if th.reply.Fetched? then Storing else Unlocking))
    case Store =>
      var entry := Entry(th.fetch, th.link, s.fetches[th.fetch].addrs, s.clock);
      SetThread(SetCache(s, th.cache, c.(entry := Some(entry))), t, th.(stage := Unlocking))
    case Unlock => SetThread(SetCache(s, th.cache, c.(writer := None)), t, th.(stage := Done))
  }

  function Apply(s: State, e: Event): State
    requires Enabled(s, e)
  {
    match e
    case Run(t, step) => RunStep(s, t, step)
    case ContextEnds(t) => SetThread(s, t, s.threads[t].(live := false))
    case Tick(d) => s.(clock := s.clock + d)
    case Invalidate(c) => SetCache(s, c, CacheOf(s, c).(entry := None))
  }

  // ---------------------------------------------------------------- the invariant

  predicate HoldsGate(th: Thread) {
    th.stage == Gated || th.stage == Sleeping || th.stage == Fetching || th.stage == Leaving
  }

  predicate HoldsLock(th: Thread) {
    th.stage == Checking || th.stage == GateWait || HoldsGate(th) || th.stage == Storing || th.stage == Unlocking
  }

  /** After the second look at the cache and before the fetch has ended. */
  predicate MissedCache(th: Thread) {
    th.stage == GateWait || th.stage == Gated || th.stage == Sleeping || th.stage == Fetching
  }

  ghost predicate ReplyOk(s: State, th: Thread, t: nat) {
    match th.reply
    case Failed => true
    case FromCache(e, at) =>
      && e.link == th.link && e.fetch < |s.fetches| && s.fetches[e.fetch].link == th.link
      && s.fetches[e.fetch].ended.Some? && s.fetches[e.fetch].ended.value <= e.storedAt <= at < e.storedAt + LIFETIME
    case Fetched(f) =>
      && f < |s.fetches| && s.fetches[f].link == th.link && s.fetches[f].maker == t && s.fetches[f].ended.Some?
  }

  ghost predicate ThreadOk(s: State, t: nat)
    requires t < |s.threads|
  {
    var th := s.threads[t];
    && (HoldsGate(th) <==> s.gate == Some(t))
    && (HoldsLock(th) <==> CacheOf(s, th.cache).writer == Some(t))
    && (MissedCache(th) ==> !Usable(CacheOf(s, th.cache), th.link, s.clock) && th.reply == Failed)
    && (th.stage == Sleeping ==> s.lastFetch.Some? && th.wakeAt >= s.lastFetch.value + MIN_SPACING)
    && (th.stage == Fetching ==> |s.fetches| > 0 && th.fetch == |s.fetches| - 1 && s.fetches[th.fetch].ended == None
                                 && s.fetches[th.fetch].maker == t && s.fetches[th.fetch].link == th.link)
    && (th.reply.Fetched? ==> th.reply.fetch == th.fetch)
    && (th.stage == Storing ==> th.reply.Fetched?)
    && (!MissedCache(th) && th.stage != Leaving && th.stage != Storing && th.stage != Unlocking && th.stage != Done ==> th.reply == Failed)
    && ReplyOk(s, th, t)
  }

  ghost predicate CacheOk(s: State, id: nat) {
    var c := CacheOf(s, id);
    && (c.writer.Some? ==> c.writer.value < |s.threads| && s.threads[c.writer.value].cache == id && HoldsLock(s.threads[c.writer.value]))
    && (c.entry.Some? ==>
          var e := c.entry.value;
          && e.fetch < |s.fetches| && s.fetches[e.fetch].link == e.link && s.fetches[e.fetch].ended.Some?
          && s.fetches[e.fetch].ended.value <= e.storedAt <= s.clock)
  }

  /** Fetch i is over, or is the latest one and belongs to the gate's holder. */
  ghost predicate FetchOk(s: State, i: nat)
    requires i < |s.fetches|
  {
    var f := s.fetches[i];
    match f.ended
    case None => i == |s.fetches| - 1 && s.gate == Some(f.maker) && f.maker < |s.threads| && s.threads[f.maker].stage == Fetching
    case Some(x) => x <= s.clock && s.lastFetch.Some? && x <= s.lastFetch.value
  }

  /** Each fetch starts at least three seconds after every earlier one ended. */
  ghost predicate Spaced(fetches: seq<Fetch>) {
    forall i, j :: 0 <= i < j < |fetches| ==>
      fetches[i].ended.Some? && fetches[j].started >= fetches[i].ended.value + MIN_SPACING
  }

  ghost predicate Inv(s: State) {
    && (forall t :: 0 <= t < |s.threads| ==> ThreadOk(s, t))
    && (forall id: nat :: CacheOk(s, id))
    && (forall i :: 0 <= i < |s.fetches| ==> FetchOk(s, i))
    && Spaced(s.fetches)
    && (s.gate.Some? ==> s.gate.value < |s.threads|)
  }

  lemma StartInv(requests: seq<(nat, nat)>, clock: int)
    ensures Inv(Start(requests, clock))
  {
  }

  /** A step touches no cache but the one its thread has locked, or is about to lock. */
  lemma CacheFrame(s: State, t: nat, step: Step, id: nat)
    requires Inv(s) && Enabled(s, Run(t, step))
    ensures CacheOf(RunStep(s, t, step), id) != CacheOf(s, id) ==>
              id == s.threads[t].cache && (step == TakeLock || CacheOf(s, id).writer == Some(t))
  {
    assert ThreadOk(s, t);
  }

  lemma OwnCacheAfter(s: State, t: nat, step: Step)
    requires Inv(s) && Enabled(s, Run(t, step))
    ensures CacheOk(RunStep(s, t, step), s.threads[t].cache)
  {
    assert CacheOk(s, s.threads[t].cache) && ThreadOk(s, t);
    if step.Store? { assert FetchOk(s, s.threads[t].fetch); }
  }

  lemma OtherCacheAfter(s: State, t: nat, step: Step, id: nat)
    requires Inv(s) && Enabled(s, Run(t, step)) && id != s.threads[t].cache
    ensures CacheOk(RunStep(s, t, step), id)
  {
    assert CacheOk(s, id) && ThreadOk(s, t);
    CacheFrame(s, t, step, id);
    var u := RunStep(s, t, step);
    assert |s.fetches| <= |u.fetches| && u.threads[t].cache == s.threads[t].cache;
    assert forall f :: 0 <= f < |s.fetches| && s.fetches[f].ended.Some? ==> u.fetches[f] == s.fetches[f];
  }

  lemma CacheAfter(s: State, e: Event, id: nat)
    requires Inv(s) && Enabled(s, e)
    ensures CacheOk(Apply(s, e), id)
  {
    if e.Run? {
      if id == s.threads[e.t].cache { OwnCacheAfter(s, e.t, e.step); } else { OtherCacheAfter(s, e.t, e.step, id); }
    } else {
      assert CacheOk(s, id);
    }
  }

  lemma FetchAfter(s: State, e: Event, i: nat)
    requires Inv(s) && Enabled(s, e) && i < |Apply(s, e).fetches|
    ensures FetchOk(Apply(s, e), i)
  {
    if i < |s.fetches| { assert FetchOk(s, i); }
    if e.Run? {
      assert ThreadOk(s, e.t);
    }
  }

  /** Only the latest fetch can be in progress, and only while its maker holds the gate. */
  lemma SpacedAfter(s: State, e: Event)
    requires Inv(s) && Enabled(s, e)
    ensures Spaced(Apply(s, e).fetches)
  {
    if e.Run? { assert ThreadOk(s, e.t); }
    var fs := Apply(s, e).fetches;
    forall i, j | 0 <= i < j < |fs| ensures fs[i].ended.Some? && fs[j].started >= fs[i].ended.value + MIN_SPACING {
      assert FetchOk(s, i);
      if j < |s.fetches| {
        assert s.fetches[i].ended.Some? && s.fetches[j].started >= s.fetches[i].ended.value + MIN_SPACING;
        assert fs[i] == s.fetches[i] && fs[j].started == s.fetches[j].started;
      } else {
        assert fs[i] == s.fetches[i] && s.fetches[i].ended.Some? && s.lastFetch.Some?;
      }
    }
  }

  lemma OwnThreadAfter(s: State, t: nat, step: Step)
    requires Inv(s) && Enabled(s, Run(t, step))
    ensures ThreadOk(RunStep(s, t, step), t)
  {
    hide FetchOk, Spaced;
    assert ThreadOk(s, t) && CacheOk(s, s.threads[t].cache);
  }

  lemma OtherThreadStep(s: State, u: nat, step: Step, t: nat)
    requires Inv(s) && Enabled(s, Run(u, step)) && t < |s.threads| && u != t
    ensures ThreadOk(RunStep(s, u, step), t)
  {
    hide CacheOk, FetchOk, Spaced;
    assert ThreadOk(s, t) && ThreadOk(s, u);
    var v := RunStep(s, u, step);
    var th := s.threads[t];
    CacheFrame(s, u, step, th.cache);
    if HoldsGate(th) { assert v.lastFetch == s.lastFetch && v.fetches == s.fetches; }
    assert ReplyOk(v, th, t);
  }

  lemma OtherThreadAfter(s: State, e: Event, t: nat)
    requires Inv(s) && Enabled(s, e) && t < |s.threads| && !(e.Run? && e.t == t)
    ensures ThreadOk(Apply(s, e), t)
  {
    if e.Run? { OtherThreadStep(s, e.t, e.step, t); } else { assert ThreadOk(s, t) && CacheOk(s, s.threads[t].cache); }
  }

  lemma StepKeepsInv(s: State, e: Event)
    requires Inv(s) && Enabled(s, e)
    ensures Inv(Apply(s, e)) && |Apply(s, e).threads| == |s.threads|
  {
    var u := Apply(s, e);
    forall t | 0 <= t < |u.threads| ensures ThreadOk(u, t) {
      if e.Run? && e.t == t { OwnThreadAfter(s, t, e.step); } else { OtherThreadAfter(s, e, t); }
    }
    forall id: nat ensures CacheOk(u, id) { CacheAfter(s, e, id); }
    forall i | 0 <= i < |u.fetches| ensures FetchOk(u, i) { FetchAfter(s, e, i); }
    SpacedAfter(s, e);
  }

  predicate Runs(s: State, events: seq<Event>)
    decreases |events|
  {
    events == [] || (Enabled(s, events[0]) && Runs(Apply(s, events[0]), events[1..]))
  }

  function Final(s: State, events: seq<Event>): State
    requires Runs(s, events)
    decreases |events|
  {
    if events == [] then s else Final(Apply(s, events[0]), events[1..])
  }

  lemma {:induction false} RunKeepsInv(s: State, events: seq<Event>)
    requires Inv(s) && Runs(s, events)
    ensures Inv(Final(s, events)) && |Final(s, events).threads| == |s.threads|
    decreases |events|
  {
    if events != [] {
      StepKeepsInv(s, events[0]);
      RunKeepsInv(Apply(s, events[0]), events[1..]);
    }
  }

  // ---------------------------------------------------------------- what every run guarantees

  /** Upstream fetches never overlap, and each starts at least three seconds after any earlier one
      ended. */
  lemma FetchesAreSerialAndSpaced(requests: seq<(nat, nat)>, clock: int, events: seq<Event>)
    requires Runs(Start(requests, clock), events)
    ensures var s := Final(Start(requests, clock), events);
            && Spaced(s.fetches)
            && (forall t, u :: 0 <= t < |s.threads| && 0 <= u < |s.threads| ==>
                 (HoldsGate(s.threads[t]) && HoldsGate(s.threads[u]) ==> t == u))
  {
    StartInv(requests, clock);
    RunKeepsInv(Start(requests, clock), events);
    var s := Final(Start(requests, clock), events);
    forall t, u | 0 <= t < |s.threads| && 0 <= u < |s.threads| && HoldsGate(s.threads[t]) && HoldsGate(s.threads[u])
      ensures t == u
    {
      assert ThreadOk(s, t) && ThreadOk(s, u);
    }
  }

  /** Whatever a stream is given was fetched from upstream for the link it asked for: by its own
      request, or by one whose result had been stored for less than 540 s when it was read. */
  lemma RepliesMatchDirectFetching(requests: seq<(nat, nat)>, clock: int, events: seq<Event>, t: nat)
    requires Runs(Start(requests, clock), events) && t < |requests|
    ensures var s := Final(Start(requests, clock), events);
            |s.threads| == |requests| &&
            match s.threads[t].reply
            case Failed => true
            case Fetched(f) => f < |s.fetches| && s.fetches[f].maker == t && s.fetches[f].link == s.threads[t].link && s.fetches[f].ended.Some?
            case FromCache(e, at) =>
              && e.fetch < |s.fetches| && s.fetches[e.fetch].link == s.threads[t].link
              && s.fetches[e.fetch].ended.Some? && s.fetches[e.fetch].ended.value <= e.storedAt <= at < e.storedAt + LIFETIME
  {
    StartInv(requests, clock);
    RunKeepsInv(Start(requests, clock), events);
    assert ThreadOk(Final(Start(requests, clock), events), t);
  }

  /** A stream is only ever fetching, or on its way to it, while its cache holds nothing usable for
      its link: one that waited for another's refresh takes the refreshed triple instead. */
  lemma NoNeedlessFetch(requests: seq<(nat, nat)>, clock: int, events: seq<Event>, t: nat)
    requires Runs(Start(requests, clock), events) && t < |requests|
    ensures var s := Final(Start(requests, clock), events);
            |s.threads| == |requests| &&
            (MissedCache(s.threads[t]) ==> !Usable(CacheOf(s, s.threads[t].cache), s.threads[t].link, s.clock))
  {
    StartInv(requests, clock);
    RunKeepsInv(Start(requests, clock), events);
    assert ThreadOk(Final(Start(requests, clock), events), t);
  }

  /** A stream that holds the gate or a cache's lock is on its way to giving it back, and one that
      has returned, with or without credentials, holds neither. */
  lemma NothingLeftHeld(requests: seq<(nat, nat)>, clock: int, events: seq<Event>)
    requires Runs(Start(requests, clock), events)
    ensures var s := Final(Start(requests, clock), events);
            && (s.gate.Some? ==> s.gate.value < |s.threads| && HoldsGate(s.threads[s.gate.value]))
            && (forall id: nat :: CacheOf(s, id).writer.Some? ==>
                 CacheOf(s, id).writer.value < |s.threads| && HoldsLock(s.threads[CacheOf(s, id).writer.value]))
  {
    StartInv(requests, clock);
    RunKeepsInv(Start(requests, clock), events);
    var s := Final(Start(requests, clock), events);
    assert s.gate.Some? ==> ThreadOk(s, s.gate.value);
    forall id: nat | CacheOf(s, id).writer.Some?
      ensures CacheOf(s, id).writer.value < |s.threads| && HoldsLock(s.threads[CacheOf(s, id).writer.value])
    {
      assert CacheOk(s, id);
    }
  }

  /** The steps a lock holder takes, once its context has ended, until it holds nothing. */
  function Unwind(t: nat, th: Thread): seq<Event> {
    match th.stage
    case Checking => [Run(t, Recheck), Run(t, Unlock)]
    case GateWait => [Run(t, GiveUp), Run(t, Unlock)]
    case Gated => [Run(t, Throttle(0)), Run(t, ReleaseGate), Run(t, Unlock)]
    case Sleeping => [Run(t, GiveUp), Run(t, ReleaseGate), Run(t, Unlock)]
    case Fetching => [Run(t, FetchEnds(false, 0)), Run(t, ReleaseGate), Run(t, Unlock)]
    case Leaving =>
      if th.reply.Fetched? then [Run(t, ReleaseGate), Run(t, Store), Run(t, Unlock)]
      else [Run(t, ReleaseGate), Run(t, Unlock)]
    case Storing => [Run(t, Store), Run(t, Unlock)]
    case Unlocking => [Run(t, Unlock)]
    case _ => []
  }

  lemma UnwindStep(s: State, t: nat)
    requires t < |s.threads| && ThreadOk(s, t) && !s.threads[t].live && HoldsLock(s.threads[t])
    ensures var es := Unwind(t, s.threads[t]);
            && es != [] && Enabled(s, es[0])
            && var u := Apply(s, es[0]);
               && |u.threads| == |s.threads| && es[1..] == Unwind(t, u.threads[t])
               && !u.threads[t].live && u.threads[t].cache == s.threads[t].cache
               && (HoldsLock(u.threads[t]) || (u.threads[t].stage == Done && CacheOf(u, s.threads[t].cache).writer == None))
  {
  }

  /** No other thread is needed for a canceled stream to release the gate and its cache's lock (once
      its upstream request, if one is under way, has failed). */
  lemma {:induction false} CanceledStreamsUnwind(s: State, t: nat)
    requires Inv(s) && t < |s.threads| && !s.threads[t].live && HoldsLock(s.threads[t])
    ensures var es := Unwind(t, s.threads[t]);
            && Runs(s, es) && |Final(s, es).threads| == |s.threads|
            && Final(s, es).threads[t].stage == Done && Final(s, es).gate != Some(t)
            && CacheOf(Final(s, es), s.threads[t].cache).writer == None
    decreases |Unwind(t, s.threads[t])|
  {
    hide Unwind, Apply;
    var es := Unwind(t, s.threads[t]);
    assert ThreadOk(s, t);
    UnwindStep(s, t);
    StepKeepsInv(s, es[0]);
    var u := Apply(s, es[0]);
    assert ThreadOk(u, t);
    if u.threads[t].stage != Done {
      CanceledStreamsUnwind(u, t);
    } else {
      UnwindEnds(t, u.threads[t]);
    }
  }

  lemma UnwindEnds(t: nat, th: Thread)
    requires th.stage == Done
    ensures Unwind(t, th) == []
  {
  }
}
