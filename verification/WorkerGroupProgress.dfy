/**
 What the worker groups get done (core/main.go, start; core/worker_group.go): with credentials every group
 comes to run, and the configuration is fetched, after any number of failed attempts.
 */
module WorkerGroupProgress {
  import opened WorkerGroupRuns
  import opened WorkerGroups
  import opened Wrappers

  lemma {:induction false} RunsJoin(s: State, a: seq<Event>, b: seq<Event>)
    requires Runs(s, a) && Runs(Final(s, a), b)
    ensures Runs(s, a + b) && Final(s, a + b) == Final(Final(s, a), b)
    decreases |a|
  {
    if a == [] {
      assert a + b == b;
    } else {
      hide Enabled, Apply;
      assert (a + b)[1..] == a[1..] + b;
      RunsJoin(Apply(s, a[0]), a[1..], b);
    }
  }

  lemma RunOne(s: State, e: Event)
    requires Enabled(s, e)
    ensures Runs(s, [e]) && Final(s, [e]) == Apply(s, e)
  {
    assert [e][1..] == [];
  }

  lemma RunNext(s: State, a: seq<Event>, e: Event)
    requires Runs(s, a) && Enabled(Final(s, a), e)
    ensures Runs(s, a + [e]) && Final(s, a + [e]) == Apply(Final(s, a), e)
  {
    RunOne(Final(s, a), e);
    RunsJoin(s, a, [e]);
  }

  // ---------------------------------------------------------------- every group comes to run

  /** Group g obtains its credentials, spawns its workers and tells the next group. */
  function StartGroup(g: nat, last: bool): seq<Event> {
    [Proceed(g)] + [Credentials(g, true)] + [Spawn(g)] + (if last then [] else [SignalCreds(g)])
  }

  function StartGroups(k: nat, groups: nat): seq<Event> {
    if k == 0 then [] else StartGroups(k - 1, groups) + StartGroup(k - 1, k == groups)
  }

  /** The first k groups run and have told the next one; the others have not begun. */
  ghost predicate Started(s: State, k: nat, groups: nat, workers: nat) {
    && k <= groups == |s.groups| && |s.workers| == workers && !s.panicked
    && (forall g :: 0 <= g < k ==> s.groups[g] == Group(Running, true, false, g < groups - 1, g < groups - 1))
    && (forall g :: k <= g < groups ==> s.groups[g] == Group(WaitCreds, false, false, false, false))
    && (k > 0 ==> forall w :: 0 <= w < workers ==> s.workers[w] == Head)
    && !s.ctxDone && !s.configSent && !s.requestInFlight && s.sent == 0 && !s.buffered && !s.chClosed
  }

  lemma NextGroupStarts(s: State, g: nat, groups: nat, workers: nat)
    requires Started(s, g, groups, workers) && g < groups
    ensures Runs(s, StartGroup(g, g == groups - 1)) && Started(Final(s, StartGroup(g, g == groups - 1)), g + 1, groups, workers)
  {
    RunOne(s, Proceed(g));
    RunNext(s, [Proceed(g)], Credentials(g, true));
    var es := [Proceed(g)] + [Credentials(g, true)];
    assert Final(s, es).groups == s.groups[g := Group(WaitSpawn, true, g < groups - 1, false, false)];
    RunNext(s, es, Spawn(g));
    es := es + [Spawn(g)];
    assert Final(s, es).groups == s.groups[g := Group(Running, true, g < groups - 1, false, g < groups - 1)];
    if g < groups - 1 {
      RunNext(s, es, SignalCreds(g));
    } else {
      assert es + [] == es;
    }
  }

  /** When VK gives every group credentials, all groups come to run, one after another, and the workers of
      the first stand at the top of their loops. */
  lemma {:induction false} AllGroupsStart(k: nat, groups: nat, workers: nat)
    requires k <= groups
    ensures var s := Start(groups, workers);
            Runs(s, StartGroups(k, groups)) && Started(Final(s, StartGroups(k, groups)), k, groups, workers)
  {
    if k > 0 {
      hide Started, StartGroup;
      AllGroupsStart(k - 1, groups, workers);
      var s := Start(groups, workers);
      NextGroupStarts(Final(s, StartGroups(k - 1, groups)), k - 1, groups, workers);
      RunsJoin(s, StartGroups(k - 1, groups), StartGroup(k - 1, k == groups));
    }
  }

  // ---------------------------------------------------------------- the configuration is fetched

  /** A worker that finds no request out takes it and delivers the configuration. */
  function Fetch(w: nat): seq<Event> {
    [LoadSent(w)] + [Cas(w)] + [SessionConfig(w)] + [SessionReturns(w)] + [Settle(w, false)]
  }

  /** A worker that takes the request and gets no configuration. */
  function FailToFetch(w: nat): seq<Event> {
    [LoadSent(w)] + [Cas(w)] + [SessionReturns(w)] + [Settle(w, false)]
  }

  /** Nobody has the request, and no configuration has been delivered. */
  ghost predicate Open(s: State, w: nat) {
    && w < |s.workers| && s.workers[w] == Head && !s.configSent && !s.requestInFlight && !s.ctxDone
  }

  /** From any reachable state in which the request is free, a worker at the top of its loop can fetch the
      configuration: the one value is sent and everyone is told. */
  lemma ConfigCanBeFetched(s: State, w: nat)
    requires Inv(s) && Open(s, w)
    ensures Runs(s, Fetch(w))
    ensures Final(s, Fetch(w)) == s.(requestInFlight := true, sent := 1, buffered := true, configSent := true)
  {
    assert WorkerOk(s, w);
    NothingSent(s);
    RunOne(s, LoadSent(w));
    var es := [LoadSent(w)];
    assert Final(s, es) == SetWorker(s, w, BeforeCas);
    RunNext(s, es, Cas(w));
    es := es + [Cas(w)];
    assert Final(s, es) == SetWorker(s.(requestInFlight := true), w, InSession(true, false));
    RunNext(s, es, SessionConfig(w));
    es := es + [SessionConfig(w)];
    var after := s.(requestInFlight := true, sent := 1, buffered := true);
    OpenForSender(s, w);
    assert Final(s, es) == SetWorker(after, w, InSession(true, true));
    RunNext(s, es, SessionReturns(w));
    es := es + [SessionReturns(w)];
    assert Final(s, es) == SetWorker(after, w, Settling(true, true));
    RunNext(s, es, Settle(w, false));
    assert s.workers[w := Head] == s.workers;
  }

  lemma NothingSent(s: State)
    requires Inv(s) && !s.requestInFlight
    ensures s.sent == 0 && !s.buffered && !s.panicked
  {
  }

  lemma OpenForSender(s: State, w: nat)
    requires Inv(s) && Open(s, w)
    ensures !s.chClosed
  {
    assert WorkerOk(s, w);
  }

  /** A failed attempt gives the request back and leaves everything else as it was. */
  lemma FailureGivesRequestBack(s: State, w: nat)
    requires Inv(s) && Open(s, w)
    ensures Runs(s, FailToFetch(w)) && Final(s, FailToFetch(w)) == s
  {
    RunOne(s, LoadSent(w));
    var es := [LoadSent(w)];
    assert Final(s, es) == SetWorker(s, w, BeforeCas);
    RunNext(s, es, Cas(w));
    es := es + [Cas(w)];
    assert Final(s, es) == SetWorker(s.(requestInFlight := true), w, InSession(true, false));
    RunNext(s, es, SessionReturns(w));
    es := es + [SessionReturns(w)];
    assert Final(s, es) == SetWorker(s.(requestInFlight := true), w, Settling(true, false));
    RunNext(s, es, Settle(w, false));
    assert s.workers[w := Head] == s.workers;
  }

  function Attempts(failed: seq<nat>): seq<Event> {
    if failed == [] then [] else FailToFetch(failed[0]) + Attempts(failed[1..])
  }

  lemma {:induction false} FailuresChangeNothing(s: State, failed: seq<nat>)
    requires Inv(s) && forall i :: 0 <= i < |failed| ==> Open(s, failed[i])
    ensures Runs(s, Attempts(failed)) && Final(s, Attempts(failed)) == s
  {
    if failed != [] {
      hide FailToFetch, Inv;
      FailureGivesRequestBack(s, failed[0]);
      FailuresChangeNothing(s, failed[1..]);
      RunsJoin(s, FailToFetch(failed[0]), Attempts(failed[1..]));
    }
  }

  /** From the start of the program: all groups run, any workers fail to get the configuration, and another
      one then fetches it. */
  lemma ConfigIsFetchedInTheEnd(groups: nat, workers: nat, failed: seq<nat>, w: nat)
    requires groups > 0 && w < workers && forall i :: 0 <= i < |failed| ==> failed[i] < workers
    ensures var es := StartGroups(groups, groups) + Attempts(failed) + Fetch(w);
            && Runs(Start(groups, workers), es)
            && var s := Final(Start(groups, workers), es);
               && |s.groups| == groups && (forall g :: 0 <= g < groups ==> s.groups[g].stage == Running)
               && s.configSent && s.sent == 1 && s.buffered && !s.panicked
  {
    hide StartGroups, Attempts, Fetch, Inv;
    var s0, start := Start(groups, workers), StartGroups(groups, groups);
    AllGroupsStart(groups, groups, workers);
    StartInv(groups, workers);
    RunKeepsInv(s0, start);
    var s := Final(s0, start);
    FailuresChangeNothing(s, failed);
    RunsJoin(s0, start, Attempts(failed));
    ConfigCanBeFetched(s, w);
    RunsJoin(s0, start + Attempts(failed), Fetch(w));
  }

  // ---------------------------------------------------------------- the value is taken once

  /** The configuration is taken from the channel at most once: afterwards no run puts another one there. */
  lemma {:induction false} TakenOnce(s: State, events: seq<Event>)
    requires Inv(s) && s.sent == 1 && !s.buffered && Runs(s, events)
    ensures !Final(s, events).buffered
    decreases |events|
  {
    if events != [] {
      StepKeepsInv(s, events[0]);
      if events[0].SessionConfig? { SenderSeesOpenChannel(s, events[0].w); }
      FlagsFrame(s, events[0]);
      TakenOnce(Apply(s, events[0]), events[1..]);
    }
  }

  lemma ValueIsTaken(s: State, events: seq<Event>)
    requires Inv(s) && s.buffered && Runs(Apply(s, Consume), events)
    ensures !Final(Apply(s, Consume), events).buffered
  {
    StepKeepsInv(s, Consume);
    TakenOnce(Apply(s, Consume), events);
  }

  // ---------------------------------------------------------------- nothing on a closed channel

  /** In every run, a session delivers only while the channel is open, and every signal and the channel
      itself are closed once. */
  lemma NothingOnClosed(groups: nat, workers: nat, events: seq<Event>, e: Event)
    requires Runs(Start(groups, workers), events) && Enabled(Final(Start(groups, workers), events), e)
    ensures var s := Final(Start(groups, workers), events);
            match e
            case SessionConfig(_) => !s.chClosed && !s.buffered && Apply(s, e).buffered
            case SignalCreds(g) => g < |s.groups| && !s.groups[g].credsClosed && Apply(s, e).groups[g].credsClosed
            case Spawn(g) => g < |s.groups| && !s.groups[g].spawnClosed && (Apply(s, e).groups[g].spawnClosed <==> g < groups - 1)
            case CloseConfig => !s.chClosed && Apply(s, e).chClosed
            case _ => true
  {
    StartInv(groups, workers);
    RunKeepsInv(Start(groups, workers), events);
    var s := Final(Start(groups, workers), events);
    match e
    case SessionConfig(w) => SenderSeesOpenChannel(s, w);
    case SignalCreds(g) => assert GroupOk(s, g);
    case Spawn(g) => assert GroupOk(s, g);
    case _ =>
  }

  /** When the channel is closed every group has exited and no worker of the first is left. */
  lemma ClosedAtTheEnd(groups: nat, workers: nat, events: seq<Event>)
    requires Runs(Start(groups, workers), events) && Final(Start(groups, workers), events).chClosed
    ensures var s := Final(Start(groups, workers), events);
            && (forall g :: 0 <= g < |s.groups| ==> s.groups[g].stage == Exited)
            && forall w :: 0 <= w < |s.workers| ==> s.workers[w] == NotStarted || s.workers[w] == Gone
  {
    StartInv(groups, workers);
    RunKeepsInv(Start(groups, workers), events);
    var s := Final(Start(groups, workers), events);
    forall w | 0 <= w < |s.workers| ensures s.workers[w] == NotStarted || s.workers[w] == Gone {
      assert WorkerOk(s, w);
    }
  }

  /** A group exits when the connection ends or, once it runs, when its workers are gone; a worker leaves
      after its session if it has a reason to or the connection has ended. */
  lemma LeavesExactly(s: State, g: nat, w: nat, goes: bool)
    requires g < |s.groups| && w < |s.workers| && s.workers[w].Settling?
    ensures Enabled(s, ExitGroup(g)) <==>
              || (s.groups[g].stage == Running && (g == 0 ==> forall v :: 0 <= v < |s.workers| ==> s.workers[v] == Gone))
              || ((s.groups[g].stage == WaitCreds || s.groups[g].stage == Requesting || s.groups[g].stage == WaitSpawn) && s.ctxDone)
    ensures Enabled(s, ExitGroup(g)) ==> Apply(s, ExitGroup(g)).groups[g].stage == Exited
    ensures Apply(s, Settle(w, goes)).workers[w] == if goes || s.ctxDone then Gone else Head
  {
  }

  // ---------------------------------------------------------------- the connection ends

  /** Once the first group runs, all its workers have been started. */
  ghost predicate Launched(s: State) {
    |s.groups| > 0 && s.groups[0].stage == Running ==> forall w :: 0 <= w < |s.workers| ==> s.workers[w] != NotStarted
  }

  lemma GroupsOnlyByGroups(s: State, e: Event)
    requires Enabled(s, e) && GroupOf(e) == None
    ensures Apply(s, e).groups == s.groups
  {
    hide Enabled;
    match e {
      case LoadSent(_) =>
      case Cas(_) =>
      case SessionConfig(_) =>
      case SessionReturns(_) =>
      case Settle(_, _) =>
      case Cancel =>
      case Consume =>
      case CloseConfig =>
      case _ =>
    }
  }

  lemma WorkersOnlyByWorkers(s: State, e: Event)
    requires Enabled(s, e) && WorkerOf(e) == None && e != Spawn(0)
    ensures Apply(s, e).workers == s.workers
  {
    hide Enabled;
    match e {
      case Proceed(_) =>
      case Credentials(_, _) =>
      case SignalCreds(_) =>
      case Spawn(_) =>
      case ExitGroup(_) =>
      case Cancel =>
      case Consume =>
      case CloseConfig =>
      case _ =>
    }
  }

  lemma WorkerStep(s: State, e: Event, w: nat)
    requires Enabled(s, e) && WorkerOf(e).Some? && w < |s.workers|
    ensures s.workers[w] != NotStarted ==> Apply(s, e).workers[w] != NotStarted
  {
    hide SetGroup;
    assert WorkerOf(e).value == w || Apply(s, e).workers[w] == s.workers[w];
  }

  lemma NeverBackToStart(s: State, e: Event, w: nat)
    requires Enabled(s, e) && w < |s.workers|
    ensures s.workers[w] != NotStarted || e == Spawn(0) ==> Apply(s, e).workers[w] != NotStarted
  {
    if e == Spawn(0) {
      SpawnStartsAll(s, w);
    } else {
      hide Apply, Enabled;
      if WorkerOf(e).Some? { WorkerStep(s, e, w); } else { WorkersOnlyByWorkers(s, e); }
    }
  }

  lemma SpawnStartsAll(s: State, w: nat)
    requires Enabled(s, Spawn(0)) && w < |s.workers|
    ensures Apply(s, Spawn(0)).workers[w] == Head
  {
  }

  lemma GroupStep(s: State, e: Event)
    requires Enabled(s, e) && GroupOf(e).Some? && !e.Spawn? && |s.groups| > 0
    ensures Apply(s, e).groups[0].stage == Running ==> s.groups[0].stage == Running
  {
    match e {
      case Proceed(_) =>
      case Credentials(_, _) =>
      case SignalCreds(_) =>
      case ExitGroup(_) =>
      case _ =>
    }
  }

  lemma SpawnStep(s: State, g: nat)
    requires Enabled(s, Spawn(g))
    ensures |s.groups| > 0 && g != 0 ==> Apply(s, Spawn(g)).groups[0] == s.groups[0]
  {
  }

  lemma RunsOnlyBySpawn(s: State, e: Event)
    requires Enabled(s, e) && |s.groups| > 0 && Apply(s, e).groups[0].stage == Running
    ensures s.groups[0].stage == Running || e == Spawn(0)
  {
    hide Apply, Enabled;
    if GroupOf(e).None? {
      GroupsOnlyByGroups(s, e);
    } else if e.Spawn? {
      SpawnStep(s, e.g);
    } else {
      GroupStep(s, e);
    }
  }

  lemma StepKeepsLaunched(s: State, e: Event)
    requires Launched(s) && Enabled(s, e)
    ensures Launched(Apply(s, e))
  {
    hide Apply, Enabled;
    if |s.groups| > 0 && Apply(s, e).groups[0].stage == Running {
      RunsOnlyBySpawn(s, e);
      forall w | 0 <= w < |s.workers| ensures Apply(s, e).workers[w] != NotStarted {
        NeverBackToStart(s, e, w);
      }
    }
  }

  lemma {:induction false} RunKeepsLaunched(s: State, events: seq<Event>)
    requires Launched(s) && Runs(s, events)
    ensures Launched(Final(s, events))
    decreases |events|
  {
    if events != [] {
      hide Apply, Launched;
      StepKeepsLaunched(s, events[0]);
      RunKeepsLaunched(Apply(s, events[0]), events[1..]);
    }
  }

  /** Everything but the flags of the request and the worker itself is as it was. */
  ghost predicate OnlyWorker(s: State, u: State, w: nat) {
    && u.groups == s.groups && u.ctxDone == s.ctxDone && u.chClosed == s.chClosed
    && |u.workers| == |s.workers| && forall v :: 0 <= v < |s.workers| && v != w ==> u.workers[v] == s.workers[v]
  }

  /** A worker that has been started goes, once the connection has ended, without anybody's help. */
  lemma {:induction false} WorkerGoes(s: State, w: nat) returns (es: seq<Event>)
    requires w < |s.workers| && s.ctxDone && s.workers[w] != NotStarted
    ensures Runs(s, es) && Final(s, es).workers != [] && OnlyWorker(s, Final(s, es), w) && Final(s, es).workers[w] == Gone
    decreases match s.workers[w] case Head => 4 case BeforeCas => 3 case InSession(_, _) => 2 case Settling(_, _) => 1 case _ => 0
  {
    match s.workers[w] {
      case Gone => es := [];
      case Head => es := ThenGoes(s, w, LoadSent(w));
      case BeforeCas => es := ThenGoes(s, w, Cas(w));
      case InSession(_, _) => es := ThenGoes(s, w, SessionReturns(w));
      case Settling(_, _) => es := ThenGoes(s, w, Settle(w, false));
    }
  }

  lemma ThenGoes(s: State, w: nat, e: Event) returns (es: seq<Event>)
    requires w < |s.workers| && s.ctxDone && Enabled(s, e)
    requires match s.workers[w]
             case Head => e == LoadSent(w)
             case BeforeCas => e == Cas(w)
             case InSession(_, _) => e == SessionReturns(w)
             case Settling(_, _) => e == Settle(w, false)
             case _ => false
    ensures Runs(s, es) && Final(s, es).workers != [] && OnlyWorker(s, Final(s, es), w) && Final(s, es).workers[w] == Gone
    decreases match s.workers[w] case Head => 4 case BeforeCas => 3 case InSession(_, _) => 2 case Settling(_, _) => 1 case _ => 0, 0
  {
    var u := Apply(s, e);
    assert OnlyWorker(s, u, w);
    var rest := WorkerGoes(u, w);
    RunOne(s, e);
    RunsJoin(s, [e], rest);
    es := [e] + rest;
  }

  ghost predicate GoneBelow(s: State, k: nat) {
    k <= |s.workers| && forall w :: 0 <= w < k ==> s.workers[w] == Gone
  }

  lemma {:induction false} WorkersGo(s: State, k: nat) returns (es: seq<Event>)
    requires s.ctxDone && k <= |s.workers| && forall w :: 0 <= w < |s.workers| ==> s.workers[w] != NotStarted
    ensures Runs(s, es)
    ensures var u := Final(s, es);
            && u.groups == s.groups && u.ctxDone && u.chClosed == s.chClosed && |u.workers| == |s.workers|
            && GoneBelow(u, k) && forall w :: 0 <= w < |u.workers| ==> u.workers[w] != NotStarted
  {
    if k == 0 {
      es := [];
    } else {
      var first := WorkersGo(s, k - 1);
      var u := Final(s, first);
      var last := WorkerGoes(u, k - 1);
      RunsJoin(s, first, last);
      es := first + last;
    }
  }

  ghost predicate ExitedBelow(s: State, k: nat) {
    k <= |s.groups| && forall g :: 0 <= g < k ==> s.groups[g].stage == Exited
  }

  lemma {:induction false} GroupsExit(s: State, k: nat) returns (es: seq<Event>)
    requires s.ctxDone && k <= |s.groups|
    requires |s.groups| > 0 && s.groups[0].stage == Running ==> GoneBelow(s, |s.workers|)
    ensures Runs(s, es)
    ensures var u := Final(s, es);
            && u.ctxDone && u.chClosed == s.chClosed && |u.groups| == |s.groups| && ExitedBelow(u, k)
            && (u.groups != [] && u.groups[0].stage == Running ==> GoneBelow(u, |u.workers|))
  {
    if k == 0 {
      es := [];
    } else {
      es := GroupsExit(s, k - 1);
      var u := Final(s, es);
      if u.groups[k - 1].stage != Exited {
        RunNext(s, es, ExitGroup(k - 1));
        es := es + [ExitGroup(k - 1)];
      }
    }
  }

  /** When the connection ends, in any reachable state, everything can come to its end: the workers leave, the
      groups exit and the channel is closed. */
  lemma EndIsReached(groups: nat, workers: nat, events: seq<Event>) returns (es: seq<Event>)
    requires Runs(Start(groups, workers), events)
    ensures var s := Final(Start(groups, workers), events);
            && Runs(s, es) && Final(s, es).chClosed && !Final(s, es).panicked
            && forall g :: 0 <= g < groups ==> |Final(s, es).groups| == groups && Final(s, es).groups[g].stage == Exited
  {
    var s0 := Start(groups, workers);
    StartInv(groups, workers);
    RunKeepsInv(s0, events);
    RunKeepsLaunched(s0, events);
    var s := Final(s0, events);
    RunOne(s, Cancel);
    es := [Cancel];
    var done := Final(s, es);
    if groups > 0 && done.groups[0].stage == Running {
      var leaving := WorkersGo(done, workers);
      RunsJoin(s, es, leaving);
      es := es + leaving;
    }
    var exits := GroupsExit(Final(s, es), groups);
    RunsJoin(s, es, exits);
    es := es + exits;
    var end := Final(s, es);
    if !end.chClosed {
      RunNext(s, es, CloseConfig);
      es := es + [CloseConfig];
    }
    RunKeepsInv(s, es);
  }
}
