/**
 The single-flight probe coordinator (backend/vk_hash_operations.go, run).

 Any number of callers run concurrently on any keys.  Each caller is a thread with a program
 counter; every section under the mutex is one step, and so is every select outcome.  A context
 goes from live to canceled or timed out, once, at any moment.
 */
module SingleFlight {
  import opened Wrappers
  import opened Finite

  datatype Error = NoError | CanceledError | DeadlineError | OtherError(code: nat)

  /** What a probe returns; the check result is an uninterpreted value, 0 standing for the empty one. */
  datatype Outcome = Outcome(result: nat, err: Error)

  datatype Call = Call(key: nat, leader: nat, done: bool, outcome: Outcome)

  /** How a caller came by what it returned. */
  datatype Via = Own(call: nat) | Shared(call: nat) | GaveUp

  datatype Pc =
    | Entering
    | Waiting(call: nat)
    | Leading(call: nat)
    | Probing(call: nat)
    | Leaving(call: nat)
    | Returned(outcome: Outcome, via: Via)

  /** followed: the callers whose canceled probe made this one start over; retries: how often it did. */
  datatype Thread = Thread(key: nat, ctx: Ctx, pc: Pc, retries: nat, followed: set<nat>)

  datatype State = State(inFlight: map<nat, nat>, calls: seq<Call>, threads: seq<Thread>)

  datatype Event =
    | ContextDone(t: nat, how: Ctx)
    | Enter(t: nat)
    | Wake(t: nat)
    | GiveUp(t: nat)
    | CheckContext(t: nat)
    | ProbeReturns(t: nat, o: Outcome)
    | Leave(t: nat)

  function ContextError(c: Ctx): Error {
    match c
    case Live => NoError
    case Canceled => CanceledError
    case TimedOut => DeadlineError
  }

  function Start(keys: seq<nat>): State {
    State(map[], [], seq(|keys|, i requires 0 <= i < |keys| => Thread(keys[i], Live, Entering, 0, {})))
  }

  predicate Enabled(s: State, e: Event) {
    e.t < |s.threads| &&
    var th := s.threads[e.t];
    match e
    case ContextDone(_, how) => th.ctx == Live && how != Live
    case Enter(_) => th.pc.Entering?
    case Wake(_) => th.pc.Waiting? && th.pc.call < |s.calls| && s.calls[th.pc.call].done
    case GiveUp(_) => th.pc.Waiting? && th.ctx != Live
    case CheckContext(_) => th.pc.Leading? && th.pc.call < |s.calls|
    case ProbeReturns(_, _) => th.pc.Probing? && th.pc.call < |s.calls|
    case Leave(_) => th.pc.Leaving? && th.pc.call < |s.calls|
  }

  function SetThread(s: State, t: nat, th: Thread): State
    requires t < |s.threads|
  {
    s.(threads := s.threads[t := th])
  }

  function Apply(s: State, e: Event): State
    requires Enabled(s, e)
  {
    var t := e.t;
    var th := s.threads[t];
    match e
    case ContextDone(_, how) => SetThread(s, t, th.(ctx := how))
    case Enter(_) =>
      if th.key in s.inFlight then SetThread(s, t, th.(pc := Waiting(s.inFlight[th.key])))
      else
        var c := |s.calls|;
        SetThread(s.(inFlight := s.inFlight[th.key := c], calls := s.calls + [Call(th.key, t, false, Outcome(0, NoError))]),
                  t, th.(pc := Leading(c)))
    case Wake(_) =>
      var call := s.calls[th.pc.call];
      if call.outcome.err == CanceledError && th.ctx == Live then
        SetThread(s, t, th.(pc := Entering, retries := th.retries + 1, followed := th.followed + {call.leader}))
      else
        SetThread(s, t, th.(pc := Returned(call.outcome, Shared(th.pc.call))))
    case GiveUp(_) => SetThread(s, t, th.(pc := Returned(Outcome(0, ContextError(th.ctx)), GaveUp)))
    case CheckContext(_) =>
      var c := th.pc.call;
      if th.ctx != Live then
        SetThread(s.(calls := s.calls[c := s.calls[c].(outcome := Outcome(0, ContextError(th.ctx)))]), t, th.(pc := Leaving(c)))
      else
        SetThread(s, t, th.(pc := Probing(c)))
    case ProbeReturns(_, o) =>
      var c := th.pc.call;
      SetThread(s.(calls := s.calls[c := s.calls[c].(outcome := o)]), t, th.(pc := Leaving(c)))
    case Leave(_) =>
      var c := th.pc.call;
      SetThread(s.(inFlight := s.inFlight - {th.key}, calls := s.calls[c := s.calls[c].(done := true)]),
                t, th.(pc := Returned(s.calls[c].outcome, Own(c))))
  }

  /** The call a thread is in charge of. */
  function Leads(th: Thread): Option<nat> {
    match th.pc
    case Leading(c) => Some(c)
    case Probing(c) => Some(c)
    case Leaving(c) => Some(c)
    case _ => None
  }

  // ---------------------------------------------------------------- the invariant

  /** A call is registered under its key exactly while it is not done, and until then its leader is
      at work on it. */
  ghost predicate CallOk(s: State, c: nat)
    requires c < |s.calls|
  {
    var call := s.calls[c];
    && call.leader < |s.threads|
    && s.threads[call.leader].key == call.key
    && (call.done ==> s.threads[call.leader].pc == Returned(call.outcome, Own(c)))
    && (!call.done ==> Leads(s.threads[call.leader]) == Some(c) && call.key in s.inFlight && s.inFlight[call.key] == c)
  }

  ghost predicate KeyOk(s: State, k: nat) {
    k in s.inFlight ==>
      s.inFlight[k] < |s.calls| && s.calls[s.inFlight[k]].key == k && !s.calls[s.inFlight[k]].done
  }

  ghost predicate ThreadOk(s: State, t: nat)
    requires t < |s.threads|
  {
    var th := s.threads[t];
    && |th.followed| == th.retries
    && t !in th.followed
    && (forall u :: u in th.followed ==> u < |s.threads| && s.threads[u].pc.Returned? && s.threads[u].pc.via.Own?)
    && match th.pc
       case Entering => true
       case Waiting(c) => c < |s.calls| && s.calls[c].key == th.key && s.calls[c].leader != t && s.calls[c].leader !in th.followed
       case Leading(c) => c < |s.calls| && s.calls[c].leader == t && !s.calls[c].done
       case Probing(c) => c < |s.calls| && s.calls[c].leader == t && !s.calls[c].done
       case Leaving(c) => c < |s.calls| && s.calls[c].leader == t && !s.calls[c].done
       case Returned(o, Own(c)) => c < |s.calls| && s.calls[c].leader == t && s.calls[c].done && s.calls[c].outcome == o
       case Returned(o, Shared(c)) =>
         && c < |s.calls| && s.calls[c].leader != t && s.calls[c].key == th.key && s.calls[c].done && s.calls[c].outcome == o
         && (o.err == CanceledError ==> th.ctx != Live)
       case Returned(o, GaveUp) => th.ctx != Live && o == Outcome(0, ContextError(th.ctx))
  }

  ghost predicate Inv(s: State) {
    && (forall c :: 0 <= c < |s.calls| ==> CallOk(s, c))
    && (forall k: nat :: KeyOk(s, k))
    && (forall t :: 0 <= t < |s.threads| ==> ThreadOk(s, t))
  }

  lemma StartInv(keys: seq<nat>)
    ensures Inv(Start(keys))
  {
  }

  /** The two facts a step of thread e.t relies on: its own, and those of its key's call. */
  lemma Stepping(s: State, e: Event)
    requires Inv(s) && Enabled(s, e)
    ensures ThreadOk(s, e.t) && KeyOk(s, s.threads[e.t].key)
    ensures var k := s.threads[e.t].key;
            k in s.inFlight ==> CallOk(s, s.inFlight[k]) && ThreadOk(s, s.calls[s.inFlight[k]].leader)
    ensures forall c :: Leads(s.threads[e.t]) == Some(c) ==> c < |s.calls| && CallOk(s, c)
    ensures s.threads[e.t].pc.Waiting? ==>
              CallOk(s, s.threads[e.t].pc.call) && ThreadOk(s, s.calls[s.threads[e.t].pc.call].leader)
  {
    assert ThreadOk(s, e.t) && KeyOk(s, s.threads[e.t].key);
    var k := s.threads[e.t].key;
    if k in s.inFlight {
      assert CallOk(s, s.inFlight[k]);
      assert ThreadOk(s, s.calls[s.inFlight[k]].leader);
    }
    if s.threads[e.t].pc.Waiting? {
      assert CallOk(s, s.threads[e.t].pc.call);
    }
  }

  lemma CallAfter(s: State, e: Event, c: nat)
    requires Inv(s) && Enabled(s, e) && c < |Apply(s, e).calls|
    ensures CallOk(Apply(s, e), c)
  {
    Stepping(s, e);
    if c < |s.calls| {
      assert CallOk(s, c);
      assert KeyOk(s, s.calls[c].key);
    }
  }

  lemma KeyAfter(s: State, e: Event, k: nat)
    requires Inv(s) && Enabled(s, e)
    ensures KeyOk(Apply(s, e), k)
  {
    Stepping(s, e);
    assert KeyOk(s, k);
    if k in s.inFlight {
      assert CallOk(s, s.inFlight[k]);
    }
  }

  lemma FollowedAfter(s: State, e: Event, t: nat)
    requires Inv(s) && Enabled(s, e) && t < |s.threads|
    ensures var th := Apply(s, e).threads[t];
            && |th.followed| == th.retries && t !in th.followed
            && forall u :: u in th.followed ==>
                 u < |s.threads| && Apply(s, e).threads[u].pc.Returned? && Apply(s, e).threads[u].pc.via.Own?
  {
    Stepping(s, e);
    assert ThreadOk(s, t);
  }

  lemma ThreadAfter(s: State, e: Event, t: nat)
    requires Inv(s) && Enabled(s, e) && t < |s.threads|
    ensures ThreadOk(Apply(s, e), t)
  {
    FollowedAfter(s, e, t);
    Stepping(s, e);
    assert ThreadOk(s, t);
    var th := s.threads[t];
    if th.pc.Waiting? && t != e.t {
      assert CallOk(s, th.pc.call);
    }
  }

  lemma StepKeepsInv(s: State, e: Event)
    requires Inv(s) && Enabled(s, e)
    ensures Inv(Apply(s, e))
  {
    forall c | 0 <= c < |Apply(s, e).calls| ensures CallOk(Apply(s, e), c) { CallAfter(s, e, c); }
    forall k: nat ensures KeyOk(Apply(s, e), k) { KeyAfter(s, e, k); }
    forall t | 0 <= t < |s.threads| ensures ThreadOk(Apply(s, e), t) { ThreadAfter(s, e, t); }
  }

  predicate Runs(s: State, events: seq<Event>)
    decreases |events|
  {
    events == [] || (Enabled(s, events[0]) && Runs(Apply(s, events[0]), events[1..]))
  }

  function Final(s: State, events: seq<Event>): State
    requires Runs(s, events)
    decreases |events|
  {
    if events == [] then s else Final(Apply(s, events[0]), events[1..])
  }

  lemma {:induction false} RunKeepsInv(s: State, events: seq<Event>)
    requires Inv(s) && Runs(s, events)
    ensures Inv(Final(s, events)) && |Final(s, events).threads| == |s.threads|
    decreases |events|
  {
    if events != [] {
      StepKeepsInv(s, events[0]);
      RunKeepsInv(Apply(s, events[0]), events[1..]);
    }
  }

  // ---------------------------------------------------------------- what every run guarantees

  /** At most one caller per key is between registering a call and closing it; in particular at most
      one probe of a key runs at any time. */
  lemma AtMostOneProbePerKey(keys: seq<nat>, events: seq<Event>, t: nat, u: nat)
    requires Runs(Start(keys), events)
    requires t < |keys| && u < |keys|
    ensures var s := Final(Start(keys), events);
            && |s.threads| == |keys|
            && (Leads(s.threads[t]).Some? && Leads(s.threads[u]).Some? && s.threads[t].key == s.threads[u].key ==> t == u)
  {
    StartInv(keys);
    RunKeepsInv(Start(keys), events);
    var s := Final(Start(keys), events);
    assert ThreadOk(s, t) && ThreadOk(s, u);
    if Leads(s.threads[t]).Some? && Leads(s.threads[u]).Some? {
      assert CallOk(s, Leads(s.threads[t]).value) && CallOk(s, Leads(s.threads[u]).value);
    }
  }

  /** What a caller returns is what its own call recorded, exactly what the leader it followed
      recorded, or its own context's error; a cancellation that is not from its own call means that
      its own context has ended. */
  lemma ReturnsAreAccountedFor(keys: seq<nat>, events: seq<Event>, t: nat)
    requires Runs(Start(keys), events) && t < |keys|
    ensures var s := Final(Start(keys), events);
            |s.threads| == |keys| &&
            var th := s.threads[t];
            th.pc.Returned? ==>
              match th.pc.via
              case Own(c) => c < |s.calls| && s.calls[c].leader == t && s.calls[c].done && s.calls[c].outcome == th.pc.outcome
              case Shared(c) =>
                && c < |s.calls| && s.calls[c].leader != t && s.calls[c].done
                && s.calls[c].outcome == th.pc.outcome
                && (th.pc.outcome.err == CanceledError ==> th.ctx != Live)
              case GaveUp => th.ctx != Live && th.pc.outcome == Outcome(0, ContextError(th.ctx))
  {
    StartInv(keys);
    RunKeepsInv(Start(keys), events);
    assert ThreadOk(Final(Start(keys), events), t);
  }

  /** A caller starts over at most once for each other caller. */
  lemma RetriesBounded(keys: seq<nat>, events: seq<Event>, t: nat)
    requires Runs(Start(keys), events) && t < |keys|
    ensures var s := Final(Start(keys), events);
            |s.threads| == |keys| && s.threads[t].retries <= |keys| - 1
  {
    StartInv(keys);
    RunKeepsInv(Start(keys), events);
    var s := Final(Start(keys), events);
    assert ThreadOk(s, t);
    var others := UpTo(|keys|) - {t};
    SubsetSize(s.threads[t].followed, others);
  }

  /** No step closes a call's done channel twice, and a closed call's outcome never changes. */
  lemma DoneClosesOnce(s: State, e: Event, c: nat)
    requires Inv(s) && Enabled(s, e) && c < |s.calls|
    ensures c < |Apply(s, e).calls|
    ensures s.calls[c].done ==> Apply(s, e).calls[c] == s.calls[c] && (e.Leave? ==> s.threads[e.t].pc.call != c)
    ensures !s.calls[c].done && Apply(s, e).calls[c].done ==> e == Leave(s.calls[c].leader)
  {
    assert ThreadOk(s, e.t);
  }

  /** The caller has a step of its own on the call it leads. */
  ghost predicate CanGoOn(s: State, u: nat) {
    Enabled(s, CheckContext(u)) || Enabled(s, Leave(u)) || forall o :: Enabled(s, ProbeReturns(u, o))
  }

  /** Nobody waits for a call that no one will close: the call a caller waits for is done, or its own
      leader has a step to take. */
  lemma NoOneWaitsForever(keys: seq<nat>, events: seq<Event>, t: nat)
    requires Runs(Start(keys), events) && t < |keys|
    ensures var s := Final(Start(keys), events);
            |s.threads| == |keys| &&
            (s.threads[t].pc.Waiting? ==>
               && s.threads[t].pc.call < |s.calls|
               && (Enabled(s, Wake(t)) || CanGoOn(s, s.calls[s.threads[t].pc.call].leader)))
  {
    StartInv(keys);
    RunKeepsInv(Start(keys), events);
    var s := Final(Start(keys), events);
    if s.threads[t].pc.Waiting? {
      assert ThreadOk(s, t);
      assert CallOk(s, s.threads[t].pc.call);
      assert ThreadOk(s, s.calls[s.threads[t].pc.call].leader);
    }
  }

  // ---------------------------------------------------------------- foreign deadlines

  /** The caller's context is live and it returns an expired deadline that another caller's call
      recorded. */
  ghost predicate ReturnsForeignDeadline(s: State, t: nat) {
    && t < |s.threads| && s.threads[t].ctx == Live
    && s.threads[t].pc.Returned? && s.threads[t].pc.via.Shared? && s.threads[t].pc.outcome.err == DeadlineError
  }

  /** Only the callers in may have deadlines: their contexts can time out, their probes can say so. */
  predicate Respects(e: Event, may: set<nat>) {
    && (e.ContextDone? && e.how == TimedOut ==> e.t in may)
    && (e.ProbeReturns? && e.o.err == DeadlineError ==> e.t in may)
  }

  ghost predicate AllRespect(events: seq<Event>, may: set<nat>) {
    forall i :: 0 <= i < |events| ==> Respects(events[i], may)
  }

  /** Expired deadlines come from callers that have one; keys stay. */
  ghost predicate DeadlinesFrom(s: State, keys: seq<nat>, may: set<nat>) {
    && |s.threads| == |keys|
    && (forall t :: 0 <= t < |keys| ==> s.threads[t].key == keys[t])
    && (forall t :: 0 <= t < |keys| && s.threads[t].ctx == TimedOut ==> t in may)
    && (forall c :: 0 <= c < |s.calls| && s.calls[c].outcome.err == DeadlineError ==> s.calls[c].leader in may)
  }

  lemma StepKeepsDeadlines(s: State, e: Event, keys: seq<nat>, may: set<nat>)
    requires Inv(s) && Enabled(s, e) && DeadlinesFrom(s, keys, may) && Respects(e, may)
    ensures DeadlinesFrom(Apply(s, e), keys, may)
  {
    assert ThreadOk(s, e.t);
  }

  lemma {:induction false} RunKeepsDeadlines(s: State, events: seq<Event>, keys: seq<nat>, may: set<nat>)
    requires Inv(s) && Runs(s, events) && DeadlinesFrom(s, keys, may) && AllRespect(events, may)
    ensures DeadlinesFrom(Final(s, events), keys, may)
    decreases |events|
  {
    if events != [] {
      assert Respects(events[0], may);
      StepKeepsInv(s, events[0]);
      StepKeepsDeadlines(s, events[0], keys, may);
      RunKeepsDeadlines(Apply(s, events[0]), events[1..], keys, may);
    }
  }

  /** A live caller shares no context error but an expired deadline, and that comes from another caller
      of its key that has one. */
  lemma LiveSharesOnlyDeadlines(keys: seq<nat>, events: seq<Event>, may: set<nat>, t: nat)
    requires Runs(Start(keys), events) && AllRespect(events, may) && t < |keys|
    ensures var s := Final(Start(keys), events);
            |s.threads| == |keys| &&
            var th := s.threads[t];
            th.ctx == Live && th.pc.Returned? && th.pc.via.Shared? ==>
              && th.pc.outcome.err != CanceledError
              && (th.pc.outcome.err == DeadlineError ==>
                   && th.pc.via.call < |s.calls| && s.calls[th.pc.via.call].outcome == th.pc.outcome
                   && var u := s.calls[th.pc.via.call].leader; u in may && u < |keys| && u != t && keys[u] == keys[t])
  {
    StartInv(keys);
    RunKeepsInv(Start(keys), events);
    RunKeepsDeadlines(Start(keys), events, keys, may);
    var s := Final(Start(keys), events);
    assert ThreadOk(s, t);
    if s.threads[t].pc.Returned? && s.threads[t].pc.via.Shared? {
      assert CallOk(s, s.threads[t].pc.via.call);
    }
  }

  /** The course in which caller t joins the call of caller u, whose deadline passes while it probes. */
  function DeadlineRun(u: nat, t: nat): seq<Event> {
    [Enter(u), Enter(t), CheckContext(u), ContextDone(u, TimedOut), ProbeReturns(u, Outcome(0, DeadlineError)), Leave(u), Wake(t)]
  }

  lemma RunStep(s: State, events: seq<Event>)
    requires events != [] && Enabled(s, events[0]) && Runs(Apply(s, events[0]), events[1..])
    ensures Runs(s, events) && Final(s, events) == Final(Apply(s, events[0]), events[1..])
  {
  }

  /** Caller t waits, with a live context, for call 0 of caller u, which is at pc. */
  ghost predicate Joined(s: State, u: nat, t: nat, pc: Pc, call: Call) {
    && u < |s.threads| && t < |s.threads| && u != t && s.calls == [call]
    && s.threads[u].pc == pc && s.threads[u].key == call.key
    && s.threads[t].pc == Waiting(0) && s.threads[t].ctx == Live
  }

  lemma JoinHappens(keys: seq<nat>, u: nat, t: nat)
    requires u < |keys| && t < |keys| && u != t && keys[u] == keys[t]
    ensures var s0 := Start(keys);
            && Enabled(s0, Enter(u)) && Enabled(Apply(s0, Enter(u)), Enter(t))
            && var s2 := Apply(Apply(s0, Enter(u)), Enter(t));
               Joined(s2, u, t, Leading(0), Call(keys[u], u, false, Outcome(0, NoError))) && s2.threads[u].ctx == Live
  {
    var s1 := Apply(Start(keys), Enter(u));
    assert s1.inFlight == map[keys[u] := 0] && s1.threads[t].key == keys[u] && s1.threads[t].pc == Entering;
  }

  lemma ProbeTimesOut(s: State, u: nat, t: nat, call: Call)
    requires Joined(s, u, t, Leading(0), call) && s.threads[u].ctx == Live
    ensures Enabled(s, CheckContext(u)) && Enabled(Apply(s, CheckContext(u)), ContextDone(u, TimedOut))
    ensures Joined(Apply(Apply(s, CheckContext(u)), ContextDone(u, TimedOut)), u, t, Probing(0), call)
  {
  }

  lemma DeadlineIsRecorded(s: State, u: nat, t: nat, call: Call)
    requires Joined(s, u, t, Probing(0), call)
    ensures var e := ProbeReturns(u, Outcome(0, DeadlineError));
            Enabled(s, e) && Joined(Apply(s, e), u, t, Leaving(0), call.(outcome := Outcome(0, DeadlineError)))
  {
  }

  lemma DeadlineIsReturned(s: State, u: nat, t: nat, call: Call)
    requires Joined(s, u, t, Leaving(0), call) && call.outcome == Outcome(0, DeadlineError)
    ensures Enabled(s, Leave(u)) && Enabled(Apply(s, Leave(u)), Wake(t))
    ensures ReturnsForeignDeadline(Apply(Apply(s, Leave(u)), Wake(t)), t)
  {
  }

  lemma DeadlineRunHappens(keys: seq<nat>, u: nat, t: nat)
    requires u < |keys| && t < |keys| && u != t && keys[u] == keys[t]
    ensures Runs(Start(keys), DeadlineRun(u, t)) && ReturnsForeignDeadline(Final(Start(keys), DeadlineRun(u, t)), t)
  {
    hide Apply, Enabled, Joined, ReturnsForeignDeadline;
    var run := DeadlineRun(u, t);
    var call := Call(keys[u], u, false, Outcome(0, NoError));
    var s0 := Start(keys);
    JoinHappens(keys, u, t);
    var s1 := Apply(s0, run[0]);
    var s2 := Apply(s1, run[1]);
    ProbeTimesOut(s2, u, t, call);
    var s3 := Apply(s2, run[2]);
    var s4 := Apply(s3, run[3]);
    DeadlineIsRecorded(s4, u, t, call);
    var s5 := Apply(s4, run[4]);
    DeadlineIsReturned(s5, u, t, call.(outcome := Outcome(0, DeadlineError)));
    var s6 := Apply(s5, run[5]);
    assert run[7..] == [] && Runs(Apply(s6, run[6]), run[7..]);
    RunTail(s6, run, 6);
    RunTail(s5, run, 5);
    RunTail(s4, run, 4);
    RunTail(s3, run, 3);
    RunTail(s2, run, 2);
    RunTail(s1, run, 1);
    RunTail(s0, run, 0);
    assert run[0..] == run;
  }

  lemma RunTail(s: State, run: seq<Event>, i: nat)
    requires i < |run| && Enabled(s, run[i]) && Runs(Apply(s, run[i]), run[i + 1..])
    ensures Runs(s, run[i..]) && Final(s, run[i..]) == Final(Apply(s, run[i]), run[i + 1..])
  {
    assert run[i..][1..] == run[i + 1..];
    RunStep(s, run[i..]);
  }

  /** The retry covers cancellations only.  A caller whose context is live can return a foreign expired
      deadline exactly when another caller of its key may have one. */
  lemma ForeignDeadlineExactly(keys: seq<nat>, may: set<nat>, t: nat)
    requires t < |keys|
    ensures (exists events :: Runs(Start(keys), events) && AllRespect(events, may)
                              && ReturnsForeignDeadline(Final(Start(keys), events), t))
            <==> exists u :: u in may && u < |keys| && u != t && keys[u] == keys[t]
  {
    if u :| u in may && u < |keys| && u != t && keys[u] == keys[t] {
      DeadlineRunHappens(keys, u, t);
      assert AllRespect(DeadlineRun(u, t), may);
    }
    forall events | Runs(Start(keys), events) && AllRespect(events, may)
                    && ReturnsForeignDeadline(Final(Start(keys), events), t)
      ensures exists u :: u in may && u < |keys| && u != t && keys[u] == keys[t]
    {
      LiveSharesOnlyDeadlines(keys, events, may, t);
    }
  }
}
