/** What every run of the worker groups guarantees (core/main.go, core/worker_group.go, core/session.go). */
module WorkerGroupRuns {
  import opened WorkerGroups

  predicate Runs(s: State, events: seq<Event>)
    decreases |events|
  {
    events == [] || (Enabled(s, events[0]) && Runs(Apply(s, events[0]), events[1..]))
  }

  function Final(s: State, events: seq<Event>): State
    requires Runs(s, events)
    decreases |events|
  {
    if events == [] then s else Final(Apply(s, events[0]), events[1..])
  }

  lemma {:induction false} RunKeepsInv(s: State, events: seq<Event>)
    requires Inv(s) && Runs(s, events)
    ensures Inv(Final(s, events))
    ensures |Final(s, events).workers| == |s.workers| && |Final(s, events).groups| == |s.groups|
    decreases |events|
  {
    if events != [] {
      StepKeepsInv(s, events[0]);
      RunKeepsInv(Apply(s, events[0]), events[1..]);
    }
  }

  // ---------------------------------------------------------------- what every run guarantees

  /** In every interleaving at most one session asks for the configuration at a time, at most one
      value is ever sent on the channel, and nothing is sent or signalled on a closed channel. */
  lemma ConfigSentAtMostOnce(groups: nat, workers: nat, events: seq<Event>)
    requires Runs(Start(groups, workers), events)
    ensures var s := Final(Start(groups, workers), events);
            && s.sent <= 1 && !s.panicked
            && (forall v, w :: 0 <= v < |s.workers| && 0 <= w < |s.workers| ==>
                 (Holds(s.workers[v]) && Holds(s.workers[w]) ==> v == w))
  {
    StartInv(groups, workers);
    RunKeepsInv(Start(groups, workers), events);
  }

  /** Once a worker has reported the delivery, no worker ever asks again and nothing more is sent. */
  lemma {:induction false} NoRequestAfterDelivery(s: State, events: seq<Event>)
    requires Inv(s) && Runs(s, events) && s.configSent
    ensures var u := Final(s, events);
            && u.configSent && u.sent == 1
            && forall w :: 0 <= w < |u.workers| ==> !Holds(u.workers[w])
    decreases |events|
  {
    if events != [] {
      StepKeepsInv(s, events[0]);
      if events[0].Settle? { assert WorkerOk(s, events[0].w); }
      NoRequestAfterDelivery(Apply(s, events[0]), events[1..]);
    } else {
      forall w | 0 <= w < |s.workers| ensures !Holds(s.workers[w]) { assert WorkerOk(s, w); }
    }
  }

  lemma {:induction false} EarlierGroupsObtained(s: State, g: nat, h: nat)
    requires Inv(s) && h <= g < |s.groups| && s.groups[g].obtained
    ensures s.groups[h].obtained
  {
    assert GroupOk(s, g);
    if h < g {
      EarlierGroupsObtained(s, g - 1, h);
    }
  }

  lemma {:induction false} EarlierGroupsSpawned(s: State, g: nat, h: nat)
    requires Inv(s) && h <= g < |s.groups| && s.groups[g].spawnClosed
    ensures s.groups[h].spawnClosed
  {
    assert GroupOk(s, g);
    if h < g {
      EarlierGroupsSpawned(s, g - 1, h);
    }
  }

  /** A group asks for credentials only after every earlier group obtained its own, and spawns its
      workers only after every earlier group has spawned its own. */
  lemma GroupsAdvanceInOrder(groups: nat, workers: nat, events: seq<Event>, g: nat, h: nat)
    requires Runs(Start(groups, workers), events) && h < g < groups
    ensures var s := Final(Start(groups, workers), events);
            && |s.groups| == groups
            && (s.groups[g].stage == Requesting || s.groups[g].obtained ==> s.groups[h].obtained)
            && (s.groups[g].stage == Running ==> s.groups[h].spawnClosed)
  {
    StartInv(groups, workers);
    RunKeepsInv(Start(groups, workers), events);
    var s := Final(Start(groups, workers), events);
    assert GroupOk(s, g);
    if s.groups[g].stage == Requesting || s.groups[g].obtained {
      EarlierGroupsObtained(s, g - 1, h);
    }
    if s.groups[g].stage == Running {
      EarlierGroupsSpawned(s, g - 1, h);
    }
  }
}
