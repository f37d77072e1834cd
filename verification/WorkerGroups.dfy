/**
 The worker groups of one connection (core/main.go, start; core/worker_group.go, WorkerGroup): groups
 obtain credentials and spawn their workers one after another, and the workers of the first group
 fetch the WireGuard configuration exactly once between them.

 Groups and the first group's workers are threads with a program counter; atomic operations, channel
 operations and closes are single steps.  Only the first group asks for a configuration, so the
 other groups' workers do not appear.
 */
module WorkerGroups {
  import opened Wrappers

  datatype GroupStage =
    | WaitCreds    // blocked on the previous group's credentials
    | Requesting   // asking VK for its own
    | WaitSpawn    // has credentials, blocked on the previous group's workers
    | Running      // workers spawned
    | Exited

  /** obtained: the group got credentials; signaling: its delayed close of the credentials signal is
      pending; the last two: its two signals are closed. */
  datatype Group = Group(stage: GroupStage, obtained: bool, signaling: bool, credsClosed: bool, spawnClosed: bool)

  datatype WorkerStage =
    | NotStarted
    | Head                                      // top of the loop
    | BeforeCas                                 // has seen configSent == 0
    | InSession(holds: bool, delivered: bool)   // holds: getConf
    | Settling(holds: bool, delivered: bool)    // RunSession has returned
    | Gone

  datatype State = State(
    ctxDone: bool,
    groups: seq<Group>,
    workers: seq<WorkerStage>,      // of the first group
    configSent: bool,
    requestInFlight: bool,
    sent: nat,                      // values ever sent on configCh
    buffered: bool,                 // configCh holds a value; its capacity is one
    chClosed: bool,
    panicked: bool)                 // a send on a closed channel, or a second close of a signal

  datatype Event =
    | Cancel
    | Proceed(g: nat)                           // past waitCreds
    | Credentials(g: nat, ok: bool)
    | SignalCreds(g: nat)
    | Spawn(g: nat)                             // past waitSpawn; spawns and closes signalSpawn
    | ExitGroup(g: nat)
    | LoadSent(w: nat) | Cas(w: nat)
    | SessionConfig(w: nat)                     // the session obtained a configuration and delivers it
    | SessionReturns(w: nat)
    | Settle(w: nat, goes: bool)
    | Consume
    | CloseConfig

  function Start(groups: nat, workers: nat): State {
    State(false, seq(groups, _ => Group(WaitCreds, false, false, false, false)), seq(workers, _ => NotStarted),
      false, false, 0, false, false, false)
  }

  predicate Enabled(s: State, e: Event) {
    match e
    case Cancel => true
    case Proceed(g) => g < |s.groups| && s.groups[g].stage == WaitCreds && (g == 0 || s.groups[g - 1].credsClosed)
    case Credentials(g, _) => g < |s.groups| && s.groups[g].stage == Requesting
    case SignalCreds(g) => g < |s.groups| && s.groups[g].signaling
    case Spawn(g) => g < |s.groups| && s.groups[g].stage == WaitSpawn && (g == 0 || s.groups[g - 1].spawnClosed)
    case ExitGroup(g) =>
      && g < |s.groups|
      && (if s.groups[g].stage == Running then g == 0 ==> forall w :: 0 <= w < |s.workers| ==> s.workers[w] == Gone
          else s.groups[g].stage != Exited && s.ctxDone)
    case LoadSent(w) => w < |s.workers| && s.workers[w] == Head
    case Cas(w) => w < |s.workers| && s.workers[w] == BeforeCas
    case SessionConfig(w) => w < |s.workers| && s.workers[w] == InSession(true, false)
    case SessionReturns(w) => w < |s.workers| && s.workers[w].InSession?
    case Settle(w, _) => w < |s.workers| && s.workers[w].Settling?
    case Consume => s.buffered
    case CloseConfig => !s.chClosed && forall g :: 0 <= g < |s.groups| ==> s.groups[g].stage == Exited
  }

  function SetGroup(s: State, g: nat, x: Group): State
    requires g < |s.groups|
  {
    s.(groups := s.groups[g := x])
  }

  function SetWorker(s: State, w: nat, x: WorkerStage): State
    requires w < |s.workers|
  {
    s.(workers := s.workers[w := x])
  }

  function Apply(s: State, e: Event): (u: State)
    requires Enabled(s, e)
    ensures |u.workers| == |s.workers| && |u.groups| == |s.groups|
  {
    match e
    case Cancel => s.(ctxDone := true)
    case Proceed(g) => SetGroup(s, g, s.groups[g].(stage := Requesting))
    case Credentials(g, ok) =>
      if ok then SetGroup(s, g, s.groups[g].(stage := WaitSpawn, obtained := true, signaling := g < |s.groups| - 1))
      else SetGroup(s, g, s.groups[g].(stage := Exited))
    case SignalCreds(g) =>
      SetGroup(s, g, s.groups[g].(signaling := false, credsClosed := true)).(panicked := s.panicked || s.groups[g].credsClosed)
    case Spawn(g) =>
      var closes := g < |s.groups| - 1;
      SetGroup(s, g, s.groups[g].(stage := Running, spawnClosed := s.groups[g].spawnClosed || closes))
        .(panicked := s.panicked || (closes && s.groups[g].spawnClosed),
          workers := if g == 0 then seq(|s.workers|, _ => Head) else s.workers)
    case ExitGroup(g) => SetGroup(s, g, s.groups[g].(stage := Exited))
    case LoadSent(w) => SetWorker(s, w, if s.configSent then InSession(false, false) else BeforeCas)
    case Cas(w) =>
      if s.requestInFlight then SetWorker(s, w, InSession(false, false))
      else SetWorker(s.(requestInFlight := true), w, InSession(true, false))
    case SessionConfig(w) =>
      // a full channel counts as delivered, too
      SetWorker(s.(sent := if s.buffered then s.sent else s.sent + 1, buffered := true, panicked := s.panicked || s.chClosed), w,
                InSession(true, true))
    case SessionReturns(w) => SetWorker(s, w, Settling(s.workers[w].holds, s.workers[w].delivered))
    case Settle(w, goes) =>
      var t := SetWorker(s, w, if goes || s.ctxDone then Gone else Head);
      if !s.workers[w].holds then t
      else if s.workers[w].delivered then t.(configSent := true)
      else t.(requestInFlight := false)
    case Consume => s.(buffered := false)
    case CloseConfig => s.(chClosed := true)
  }

  // ---------------------------------------------------------------- the invariant

  predicate Holds(x: WorkerStage) {
    match x
    case InSession(h, _) => h
    case Settling(h, _) => h
    case _ => false
  }

  predicate Delivered(x: WorkerStage) {
    match x
    case InSession(h, d) => h && d
    case Settling(h, d) => h && d
    case _ => false
  }

  ghost predicate WorkerOk(s: State, w: nat)
    requires w < |s.workers|
  {
    var x := s.workers[w];
    && (Holds(x) ==> s.requestInFlight && !s.configSent)
    && (Delivered(x) <==> Holds(x) && s.sent > 0)
    && (x != NotStarted && x != Gone ==> |s.groups| > 0 && s.groups[0].stage == Running)
    && (|s.groups| > 0 && s.groups[0].stage != Running && s.groups[0].stage != Exited ==> x == NotStarted)
  }

  ghost predicate GroupOk(s: State, g: nat)
    requires g < |s.groups|
  {
    var x := s.groups[g];
    && (x.stage == WaitSpawn || x.stage == Running ==> x.obtained)
    && (x.stage == WaitCreds || x.stage == Requesting ==> !x.obtained && !x.signaling && !x.credsClosed)
    && (x.signaling ==> !x.credsClosed && x.obtained)
    && (x.credsClosed ==> x.obtained)
    && (x.stage != Running && x.stage != Exited ==> !x.spawnClosed)
    && (x.obtained || x.stage == Requesting ==> g == 0 || s.groups[g - 1].obtained)
    && (x.stage == Running || x.spawnClosed ==> g == 0 || s.groups[g - 1].spawnClosed)
  }

  /** At most one request is outstanding; once a value has been sent, either its sender has not
      settled yet or configSent is set, and the request flag stays up for good. */
  ghost predicate ConfigOk(s: State) {
    && (forall v, w :: 0 <= v < |s.workers| && 0 <= w < |s.workers| ==> (Holds(s.workers[v]) && Holds(s.workers[w]) ==> v == w))
    && s.sent <= 1
    && (s.buffered ==> s.sent == 1)
    && (s.configSent ==> s.requestInFlight && s.sent == 1)
    && (s.sent == 1 ==> s.requestInFlight && (s.configSent || exists w :: 0 <= w < |s.workers| && Delivered(s.workers[w])))
    && (s.chClosed ==> forall g :: 0 <= g < |s.groups| ==> s.groups[g].stage == Exited)
  }

  ghost predicate Inv(s: State) {
    && (forall w :: 0 <= w < |s.workers| ==> WorkerOk(s, w))
    && (forall g :: 0 <= g < |s.groups| ==> GroupOk(s, g))
    && ConfigOk(s)
    && !s.panicked
  }

  lemma StartInv(groups: nat, workers: nat)
    ensures Inv(Start(groups, workers))
  {
  }

  /** Sending needs a running first group, so the channel is still open. */
  lemma SenderSeesOpenChannel(s: State, w: nat)
    requires Inv(s) && Enabled(s, SessionConfig(w))
    ensures !s.chClosed && !s.buffered && s.sent == 0
  {
    assert WorkerOk(s, w);
  }

  /** The worker an event belongs to. */
  function WorkerOf(e: Event): Option<nat> {
    match e
    case LoadSent(w) => Some(w)
    case Cas(w) => Some(w)
    case SessionConfig(w) => Some(w)
    case SessionReturns(w) => Some(w)
    case Settle(w, _) => Some(w)
    case _ => None
  }

  lemma OwnWorkerAfter(s: State, e: Event, w: nat)
    requires Inv(s) && Enabled(s, e) && w < |s.workers| && WorkerOf(e) == Some(w)
    ensures WorkerOk(Apply(s, e), w)
  {
    assert WorkerOk(s, w);
    if e.SessionConfig? { SenderSeesOpenChannel(s, w); }
  }

  /** Another worker's step. */
  lemma OtherWorkerAfter(s: State, e: Event, w: nat)
    requires Inv(s) && Enabled(s, e) && w < |s.workers| && WorkerOf(e).Some? && WorkerOf(e) != Some(w)
    ensures WorkerOk(Apply(s, e), w)
  {
    var v := WorkerOf(e).value;
    assert WorkerOk(s, w) && WorkerOk(s, v);
    assert Holds(s.workers[v]) && Holds(s.workers[w]) ==> v == w;
    if e.SessionConfig? { SenderSeesOpenChannel(s, v); }
  }

  lemma WorkerAfter(s: State, e: Event, w: nat)
    requires Inv(s) && Enabled(s, e) && w < |s.workers|
    ensures WorkerOk(Apply(s, e), w)
  {
    if WorkerOf(e) == Some(w) {
      OwnWorkerAfter(s, e, w);
    } else if WorkerOf(e).Some? {
      OtherWorkerAfter(s, e, w);
    } else {
      assert WorkerOk(s, w);
    }
  }

  /** The group an event belongs to. */
  function GroupOf(e: Event): Option<nat> {
    match e
    case Proceed(g) => Some(g)
    case Credentials(g, _) => Some(g)
    case SignalCreds(g) => Some(g)
    case Spawn(g) => Some(g)
    case ExitGroup(g) => Some(g)
    case _ => None
  }

  /** A group only moves forward: what it has obtained and signalled stays. */
  lemma GroupFrame(s: State, e: Event, g: nat)
    requires Inv(s) && Enabled(s, e) && g < |s.groups|
    ensures |Apply(s, e).groups| == |s.groups|
    ensures GroupOf(e) != Some(g) ==> Apply(s, e).groups[g] == s.groups[g]
    ensures s.groups[g].obtained ==> Apply(s, e).groups[g].obtained
    ensures s.groups[g].spawnClosed ==> Apply(s, e).groups[g].spawnClosed
  {
    assert GroupOk(s, g);
  }

  lemma OwnGroupAfter(s: State, e: Event, g: nat)
    requires Inv(s) && Enabled(s, e) && g < |s.groups| && GroupOf(e) == Some(g)
    ensures GroupOk(Apply(s, e), g)
  {
    assert GroupOk(s, g);
    if g > 0 {
      assert GroupOk(s, g - 1);
      GroupFrame(s, e, g - 1);
    }
  }

  lemma GroupAfter(s: State, e: Event, g: nat)
    requires Inv(s) && Enabled(s, e) && g < |s.groups|
    ensures GroupOk(Apply(s, e), g)
  {
    if GroupOf(e) == Some(g) {
      OwnGroupAfter(s, e, g);
    } else {
      assert GroupOk(s, g);
      GroupFrame(s, e, g);
      if g > 0 { GroupFrame(s, e, g - 1); }
    }
  }

  /** A worker comes to hold the request only by a successful compare-and-swap, and a sender keeps
      it until it reports the delivery. */
  lemma HolderFrame(s: State, e: Event, w: nat)
    requires Inv(s) && Enabled(s, e) && w < |s.workers|
    ensures Holds(Apply(s, e).workers[w]) ==> Holds(s.workers[w]) || (e == Cas(w) && !s.requestInFlight)
    ensures Delivered(s.workers[w]) ==> Delivered(Apply(s, e).workers[w]) || Apply(s, e).configSent
  {
    assert WorkerOk(s, w);
  }

  lemma OneHolderAfter(s: State, e: Event, v: nat, w: nat)
    requires Inv(s) && Enabled(s, e) && v < |s.workers| && w < |s.workers|
    requires Holds(Apply(s, e).workers[v]) && Holds(Apply(s, e).workers[w])
    ensures v == w
  {
    hide Apply;
    HolderFrame(s, e, v);
    HolderFrame(s, e, w);
    assert WorkerOk(s, v) && WorkerOk(s, w);
  }

  lemma FlagsFrame(s: State, e: Event)
    requires Inv(s) && Enabled(s, e)
    ensures s.configSent ==> Apply(s, e).configSent
    ensures s.sent == 1 || e.SessionConfig? ==> Apply(s, e).requestInFlight
    ensures Apply(s, e).sent != s.sent ==> e.SessionConfig?
  {
    if WorkerOf(e).Some? { assert WorkerOk(s, WorkerOf(e).value); }
  }

  /** A value that has been sent stays accounted for: by its sender, then by configSent. */
  lemma SentAfter(s: State, e: Event)
    requires Inv(s) && Enabled(s, e) && Apply(s, e).sent == 1
    ensures var u := Apply(s, e);
            u.requestInFlight && (u.configSent || exists w :: 0 <= w < |u.workers| && Delivered(u.workers[w]))
  {
    FlagsFrame(s, e);
    if e.SessionConfig? {
      assert Delivered(Apply(s, e).workers[e.w]);
    } else if !s.configSent {
      hide Apply;
      var w :| 0 <= w < |s.workers| && Delivered(s.workers[w]);
      HolderFrame(s, e, w);
    }
  }

  lemma CountsAfter(s: State, e: Event)
    requires Inv(s) && Enabled(s, e)
    ensures var u := Apply(s, e);
            && u.sent <= 1
            && (u.buffered ==> u.sent == 1)
            && (u.configSent ==> u.requestInFlight && u.sent == 1)
  {
    if e.SessionConfig? { SenderSeesOpenChannel(s, e.w); }
    if e.Settle? { assert WorkerOk(s, e.w); }
  }

  lemma ClosedAfter(s: State, e: Event)
    requires Inv(s) && Enabled(s, e) && Apply(s, e).chClosed
    ensures forall g :: 0 <= g < |s.groups| ==> Apply(s, e).groups[g].stage == Exited
  {
    if GroupOf(e).Some? && s.chClosed {
      assert s.groups[GroupOf(e).value].stage == Exited;
    }
  }

  lemma ConfigAfter(s: State, e: Event)
    requires Inv(s) && Enabled(s, e)
    ensures ConfigOk(Apply(s, e))
  {
    hide Apply, Inv;
    var u := Apply(s, e);
    forall v, w | 0 <= v < |u.workers| && 0 <= w < |u.workers| && Holds(u.workers[v]) && Holds(u.workers[w])
      ensures v == w
    {
      OneHolderAfter(s, e, v, w);
    }
    CountsAfter(s, e);
    if u.sent == 1 { SentAfter(s, e); }
    if u.chClosed { ClosedAfter(s, e); }
  }

  lemma NoPanicAfter(s: State, e: Event)
    requires Inv(s) && Enabled(s, e)
    ensures !Apply(s, e).panicked
  {
    match e
    case SessionConfig(w) => SenderSeesOpenChannel(s, w);
    case SignalCreds(g) => assert GroupOk(s, g);
    case Spawn(g) => assert GroupOk(s, g);
    case _ =>
  }

  lemma StepKeepsInv(s: State, e: Event)
    requires Inv(s) && Enabled(s, e)
    ensures Inv(Apply(s, e)) && |Apply(s, e).workers| == |s.workers| && |Apply(s, e).groups| == |s.groups|
  {
    hide Apply, ConfigOk;
    forall w | 0 <= w < |s.workers| ensures WorkerOk(Apply(s, e), w) { WorkerAfter(s, e, w); }
    forall g | 0 <= g < |s.groups| ensures GroupOk(Apply(s, e), g) { GroupAfter(s, e, g); }
    ConfigAfter(s, e);
    NoPanicAfter(s, e);
  }
}
