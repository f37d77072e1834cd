/**
 Whose result a caller of the probe coordinator returns (backend/vk_hash_operations.go, run): what the
 leader's probe answered reaches the leader and its followers, and a canceled probe costs a live
 follower nothing but another try.
 */
module SingleFlightResults {
  import opened SingleFlight
  import opened Wrappers

  lemma {:induction false} RunsAppend(s: State, a: seq<Event>, b: seq<Event>)
    requires Runs(s, a + b)
    ensures Runs(s, a) && Runs(Final(s, a), b) && Final(s, a + b) == Final(Final(s, a), b)
    decreases |a|
  {
    if a == [] {
      assert a + b == b;
    } else {
      hide Enabled, Apply;
      assert (a + b)[1..] == a[1..] + b;
      RunsAppend(Apply(s, a[0]), a[1..], b);
    }
  }

  lemma {:induction false} RunsJoin(s: State, a: seq<Event>, b: seq<Event>)
    requires Runs(s, a) && Runs(Final(s, a), b)
    ensures Runs(s, a + b) && Final(s, a + b) == Final(Final(s, a), b)
    decreases |a|
  {
    if a == [] {
      assert a + b == b;
    } else {
      hide Enabled, Apply;
      assert (a + b)[1..] == a[1..] + b;
      RunsJoin(Apply(s, a[0]), a[1..], b);
    }
  }

  lemma RunOne(s: State, e: Event)
    ensures Runs(s, [e]) <==> Enabled(s, e)
    ensures Enabled(s, e) ==> Final(s, [e]) == Apply(s, e)
  {
    if Enabled(s, e) {
      assert [e][1..] == [];
    }
  }

  lemma RunNext(s: State, a: seq<Event>, e: Event)
    requires Runs(s, a) && Enabled(Final(s, a), e)
    ensures Runs(s, a + [e]) && Final(s, a + [e]) == Apply(Final(s, a), e)
  {
    RunOne(Final(s, a), e);
    RunsJoin(s, a, [e]);
  }

  // ---------------------------------------------------------------- the leader's own result

  /** The leader of call c has its probe's answer: it is recorded, and to be returned or returned. */
  ghost predicate HasAnswer(s: State, t: nat, c: nat, o: Outcome) {
    && t < |s.threads| && c < |s.calls| && s.calls[c].leader == t && s.calls[c].outcome == o
    && (s.threads[t].pc == Leaving(c) || s.threads[t].pc == Returned(o, Own(c)))
  }

  lemma AnswerStays(s: State, e: Event, t: nat, c: nat, o: Outcome)
    requires Inv(s) && Enabled(s, e) && HasAnswer(s, t, c, o)
    ensures HasAnswer(Apply(s, e), t, c, o)
  {
    assert ThreadOk(s, e.t) && ThreadOk(s, t);
  }

  lemma {:induction false} AnswerThroughout(s: State, events: seq<Event>, t: nat, c: nat, o: Outcome)
    requires Inv(s) && Runs(s, events) && HasAnswer(s, t, c, o)
    ensures HasAnswer(Final(s, events), t, c, o)
    decreases |events|
  {
    if events != [] {
      StepKeepsInv(s, events[0]);
      AnswerStays(s, events[0], t, c, o);
      AnswerThroughout(Apply(s, events[0]), events[1..], t, c, o);
    }
  }

  /** What a caller's own probe answers is recorded for its followers and is what the caller returns. */
  lemma ProbeAnswerIsReturned(keys: seq<nat>, before: seq<Event>, t: nat, o: Outcome, later: seq<Event>)
    requires Runs(Start(keys), before + [ProbeReturns(t, o)] + later) && t < |keys|
    ensures Runs(Start(keys), before)
            && var s, end := Final(Start(keys), before), Final(Start(keys), before + [ProbeReturns(t, o)] + later);
               && |s.threads| == |keys| == |end.threads| && s.threads[t].pc.Probing?
               && var c := s.threads[t].pc.call;
                  && c < |end.calls| && end.calls[c].leader == t && end.calls[c].outcome == o
                  && (end.threads[t].pc.Returned? ==> end.threads[t].pc == Returned(o, Own(c)))
  {
    var s0, probed := Start(keys), before + [ProbeReturns(t, o)];
    RunsAppend(s0, probed, later);
    RunsAppend(s0, before, [ProbeReturns(t, o)]);
    StartInv(keys);
    RunKeepsInv(s0, before);
    RunKeepsInv(s0, probed);
    RunKeepsInv(s0, probed + later);
    var s := Final(s0, before);
    RunOne(s, ProbeReturns(t, o));
    assert ThreadOk(s, t);
    AnswerThroughout(Final(s0, probed), later, t, s.threads[t].pc.call, o);
  }

  // ---------------------------------------------------------------- followers

  /** Caller t joins the call of caller u, whose probe answers o. */
  function JoinedRun(u: nat, t: nat, o: Outcome): seq<Event> {
    [Enter(u)] + [Enter(t)] + [CheckContext(u)] + [ProbeReturns(u, o)] + [Leave(u)] + [Wake(t)]
  }

  lemma JoinedUpTo(keys: seq<nat>, u: nat, t: nat, o: Outcome)
    requires u < |keys| && t < |keys| && u != t && keys[u] == keys[t]
    ensures var es := [Enter(u)] + [Enter(t)] + [CheckContext(u)] + [ProbeReturns(u, o)] + [Leave(u)];
            && Runs(Start(keys), es)
            && var s := Final(Start(keys), es);
               && s.calls == [Call(keys[u], u, true, o)] && s.inFlight == map[] && |s.threads| == |keys|
               && s.threads[u].pc == Returned(o, Own(0))
               && s.threads[t] == Thread(keys[t], Live, Waiting(0), 0, {})
  {
    var s0 := Start(keys);
    RunOne(s0, Enter(u));
    var es := [Enter(u)];
    assert Final(s0, es).inFlight == map[keys[u] := 0];
    RunNext(s0, es, Enter(t));
    es := es + [Enter(t)];
    assert Final(s0, es).threads[t].pc == Waiting(0) && Final(s0, es).threads[u].pc == Leading(0);
    RunNext(s0, es, CheckContext(u));
    es := es + [CheckContext(u)];
    assert Final(s0, es).threads[u].pc == Probing(0);
    RunNext(s0, es, ProbeReturns(u, o));
    es := es + [ProbeReturns(u, o)];
    assert Final(s0, es).calls == [Call(keys[u], u, false, o)];
    RunNext(s0, es, Leave(u));
    es := es + [Leave(u)];
    assert Final(s0, es).inFlight == map[];
  }

  /** A follower returns its leader's result, whatever it is, unless it is a cancellation. */
  lemma ResultIsShared(keys: seq<nat>, u: nat, t: nat, o: Outcome)
    requires u < |keys| && t < |keys| && u != t && keys[u] == keys[t] && o.err != CanceledError
    ensures Runs(Start(keys), JoinedRun(u, t, o))
    ensures var s := Final(Start(keys), JoinedRun(u, t, o));
            && |s.threads| == |keys| && |s.calls| == 1
            && s.threads[u].pc == Returned(o, Own(0)) && s.threads[t].pc == Returned(o, Shared(0))
  {
    hide Start;
    JoinedUpTo(keys, u, t, o);
    RunNext(Start(keys), [Enter(u)] + [Enter(t)] + [CheckContext(u)] + [ProbeReturns(u, o)] + [Leave(u)], Wake(t));
  }

  /** The follower of a canceled leader probes for itself and returns what its own probe answers. */
  lemma CanceledIsTriedAgain(keys: seq<nat>, u: nat, t: nat, result: nat, o: Outcome)
    requires u < |keys| && t < |keys| && u != t && keys[u] == keys[t]
    ensures var es := JoinedRun(u, t, Outcome(result, CanceledError)) + [Enter(t)] + [CheckContext(t)] + [ProbeReturns(t, o)] + [Leave(t)];
            && Runs(Start(keys), es) && |Final(Start(keys), es).threads| == |keys|
            && Final(Start(keys), es).threads[t].pc == Returned(o, Own(1)) && Final(Start(keys), es).threads[t].retries == 1
  {
    hide Start;
    var s0, canceled := Start(keys), Outcome(result, CanceledError);
    JoinedUpTo(keys, u, t, canceled);
    RunNext(s0, [Enter(u)] + [Enter(t)] + [CheckContext(u)] + [ProbeReturns(u, canceled)] + [Leave(u)], Wake(t));
    var es := JoinedRun(u, t, canceled);
    assert Final(s0, es).threads[t] == Thread(keys[t], Live, Entering, 1, {u});
    RunNext(s0, es, Enter(t));
    es := es + [Enter(t)];
    assert Final(s0, es).threads[t].pc == Leading(1) && Final(s0, es).threads[t].ctx == Live && Final(s0, es).threads[t].retries == 1;
    RunNext(s0, es, CheckContext(t));
    es := es + [CheckContext(t)];
    RunNext(s0, es, ProbeReturns(t, o));
    es := es + [ProbeReturns(t, o)];
    RunNext(s0, es, Leave(t));
  }

  // ---------------------------------------------------------------- contexts that end

  /** Whatever its leader does, a waiting caller whose context ends can return that error at once, and
      changes nothing for anybody else. */
  lemma EndedFollowerGivesUp(s: State, t: nat, how: Ctx)
    requires t < |s.threads| && s.threads[t].pc.Waiting? && s.threads[t].ctx == Live && how != Live
    ensures var es := [ContextDone(t, how)] + [GiveUp(t)];
            var error := Outcome(0, if how == Canceled then CanceledError else DeadlineError);
            && Runs(s, es)
            && Final(s, es) == s.(threads := s.threads[t := s.threads[t].(ctx := how, pc := Returned(error, GaveUp))])
  {
    RunOne(s, ContextDone(t, how));
    RunNext(s, [ContextDone(t, how)], GiveUp(t));
  }

  /** A leader whose context has ended before the probe records and returns that error without a probe, and
      the key is free again. */
  lemma EndedLeaderReturnsError(s: State, t: nat, how: Ctx)
    requires Inv(s) && t < |s.threads| && s.threads[t].pc == Entering && s.threads[t].ctx == Live && how != Live
    requires s.threads[t].key !in s.inFlight
    ensures var es := [ContextDone(t, how)] + [Enter(t)] + [CheckContext(t)] + [Leave(t)];
            var error := Outcome(0, if how == Canceled then CanceledError else DeadlineError);
            && Runs(s, es)
            && var u := Final(s, es);
               && u.calls == s.calls + [Call(s.threads[t].key, t, true, error)] && u.inFlight == s.inFlight
               && u.threads == s.threads[t := s.threads[t].(ctx := how, pc := Returned(error, Own(|s.calls|)))]
  {
    RunOne(s, ContextDone(t, how));
    var es := [ContextDone(t, how)];
    RunNext(s, es, Enter(t));
    es := es + [Enter(t)];
    assert Final(s, es).threads[t].pc == Leading(|s.calls|) && Final(s, es).threads[t].ctx == how;
    RunNext(s, es, CheckContext(t));
    es := es + [CheckContext(t)];
    assert Final(s, es).threads[t].pc == Leaving(|s.calls|);
    RunNext(s, es, Leave(t));
    assert s.inFlight[s.threads[t].key := |s.calls|] - {s.threads[t].key} == s.inFlight;
  }
}
