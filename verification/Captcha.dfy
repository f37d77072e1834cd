/**
 The captcha challenge coordinator (core/captcha_flow.go): at most one challenge is open, and a
 waiting connection is released only by the first token submitted for its own challenge while that
 challenge is live.

 Waiting connections are threads with a program counter.  The native bridge may submit, cancel,
 open or fail a challenge by id at any moment; each of these sections under the mutex is one step.
 */
module Captcha {
  import opened Wrappers
  import Strings

  predicate Blank(token: string) {
    forall i :: 0 <= i < |token| ==> Strings.IsSpace(token[i])
  }

  /** Nothing is left of a blank token, and of no other, when white space is trimmed. */
  lemma {:induction false} BlankMeaning(token: string)
    ensures Blank(token) <==> Strings.TrimSpace(token) == ""
  {
    if token != "" && Strings.IsSpace(token[0]) {
      BlankMeaning(token[1..]);
    } else if token != "" && Strings.IsSpace(token[|token| - 1]) {
      BlankMeaning(token[..|token| - 1]);
      assert token[..|token| - 1][0] == token[0];
    }
  }

  /** One challenge.  result is its one-place channel; accepted lists every token ever accepted. */
  datatype Pending = Pending(owner: nat, ctx: Ctx, result: Option<string>, launched: bool, accepted: seq<string>)

  /** A token is accepted while the challenge is live and its channel is empty. */
  function Submitted(p: Pending, token: string): (Pending, bool) {
    if p.ctx == Live && !Blank(token) && p.result == None then
      (p.(result := Some(token), accepted := p.accepted + [token]), true)
    else (p, false)
  }

  /** A browser is opened once, and again only after a failed launch. */
  function Opened(p: Pending): (Pending, bool) {
    if p.ctx == Live && !p.launched then (p.(launched := true), true) else (p, false)
  }

  /** A context ends at most once. */
  function End(c: Ctx, how: Ctx): Ctx {
    if c == Live then how else c
  }

  // ---------------------------------------------------------------- the coordinator object

  class CaptchaPending {
    const id: nat
    const url: string
    var ctx: Ctx
    var result: Option<string>
    var launched: bool
    ghost const owner: nat
    ghost var accepted: seq<string>

    constructor (id: nat, url: string, ghost owner: nat)
      ensures this.id == id && this.url == url && View() == Pending(owner, Live, None, false, [])
    {
      this.id, this.url, this.owner := id, url, owner;
      ctx, result, launched, accepted := Live, None, false, [];
    }

    ghost function View(): Pending
      reads this
    {
      Pending(owner, ctx, result, launched, accepted)
    }
  }

  class CaptchaCoordinator {
    var gate: bool
    var current: CaptchaPending?

    constructor ()
      ensures !gate && current == null
    {
      gate, current := false, null;
    }

    /** begin, once the gate is free to take; parent is the caller's context before and after taking
        it.  A caller whose context ended meanwhile gives the gate back. */
    method Begin(id: nat, url: string, parentBefore: Ctx, parentAfter: Ctx, ghost owner: nat)
      returns (r: Result<CaptchaPending, Ctx>)
      requires !gate
      modifies this
      ensures parentBefore != Live ==> r == Failure(parentBefore)
      ensures parentBefore == Live && parentAfter != Live ==> r == Failure(parentAfter)
      ensures r.Failure? ==> !gate && current == old(current)
      ensures parentBefore == Live && parentAfter == Live ==>
                && r.Success? && fresh(r.value) && gate && current == r.value
                && r.value.id == id && r.value.url == url && r.value.View() == Pending(owner, Live, None, false, [])
    {
      if parentBefore != Live {
        return Failure(parentBefore);
      }
      gate := true;
      if parentAfter != Live {
        gate := false;
        return Failure(parentAfter);
      }
      var p := new CaptchaPending(id, url, owner);
      current := p;
      r := Success(p);
    }

    method Finish(r: CaptchaPending)
      requires gate
      modifies this, r`ctx
      ensures !gate
      ensures current == if old(current) == r then null else old(current)
      ensures r.View() == old(r.View()).(ctx := if old(r.ctx) == Live then Canceled else old(r.ctx))
    {
      if current == r {
        current := null;
      }
      r.ctx := End(r.ctx, Canceled);
      gate := false;
    }

    method Active(id: nat) returns (ctx: Ctx, url: string, ok: bool)
      modifies if current == null then {} else {current}
      ensures ok <==> current != null && current.id == id && old(current.ctx) == Live && !old(current.launched)
      ensures ok ==> url == current.url && ctx == Live && current.launched
      ensures current != null ==> current.View() == old(current.View()).(launched := ok || old(current.launched))
      ensures current != null && current.id == id ==> (current.View(), ok) == Opened(old(current.View()))
    {
      if current == null || current.id != id || current.ctx != Live || current.launched {
        return Live, "", false;
      }
      current.launched := true;
      return current.ctx, current.url, true;
    }

    method LaunchFailed(id: nat)
      modifies if current == null then {} else {current}
      ensures current != null ==>
                current.View() == if current.id == id then old(current.View()).(launched := false) else old(current.View())
    {
      if current != null && current.id == id {
        current.launched := false;
      }
    }

    method Submit(id: nat, token: string) returns (ok: bool)
      modifies if current == null then {} else {current}
      ensures ok <==> current != null && current.id == id && old(current.ctx) == Live && old(current.result) == None
                      && Strings.TrimSpace(token) != ""
      ensures ok ==> current.result == Some(token) && current.accepted == old(current.accepted) + [token]
      ensures ok ==> current.ctx == Live && current.launched == old(current.launched)
      ensures !ok && current != null ==> current.View() == old(current.View())
      ensures current != null && current.id == id ==> (current.View(), ok) == Submitted(old(current.View()), token)
    {
      BlankMeaning(token);
      if current == null || current.id != id || current.ctx != Live || Blank(token) {
        return false;
      }
      if current.result == None {
        current.result := Some(token);
        current.accepted := current.accepted + [token];
        return true;
      }
      return false;
    }

    method Cancel(id: nat) returns (ok: bool)
      modifies if current == null then {} else {current}
      ensures ok <==> current != null && current.id == id
      ensures current != null ==>
                current.View() == if ok && old(current.ctx) == Live then old(current.View()).(ctx := Canceled) else old(current.View())
    {
      if current == null || current.id != id {
        return false;
      }
      current.ctx := End(current.ctx, Canceled);
      return true;
    }
  }

  // ---------------------------------------------------------------- all connections together

  /** Where a connection is in waitForCaptcha. */
  datatype Stage =
    | Arriving
    | AtGate
    | HasGate      // gate taken, request not yet created
    | Refused      // context ended in begin, gate not yet released
    | Selecting
    | GotToken     // received, context not yet checked
    | Finishing    // in finish: current not yet cleared
    | Cleared      // context not yet canceled
    | Releasing    // gate not yet released
    | Returned

  /** req is the request it opened, token what it received and will return, how the error it returns
      when there is no token. */
  datatype Waiter = Waiter(parent: Ctx, stage: Stage, req: Option<nat>, token: Option<string>, how: Ctx)

  /** A challenge's id is its position in requests. */
  datatype State = State(gate: bool, current: Option<nat>, requests: seq<Pending>, waiters: seq<Waiter>)

  /** The steps of one connection. */
  datatype Step =
    | Arrive | TakeGate | LeaveQueue | CheckParent | Release
    | ReceiveToken | ReceiveDone | CheckToken | ClearCurrent | CancelContext | ReleaseGate

  /** A step of a connection, the end of a context, or a call from the native bridge. */
  datatype Event =
    | Run(t: nat, step: Step)
    | ParentEnds(t: nat, how: Ctx)
    | RequestTimesOut(id: nat)
    | SubmitToken(id: nat, token: string) | CancelRequest(id: nat) | OpenBrowser(id: nat) | BrowserFailed(id: nat)

  function Start(n: nat): State {
    State(false, None, [], seq(n, _ => Waiter(Live, Arriving, None, None, Live)))
  }

  /** The request of a waiter, when it has one. */
  predicate HasRequest(s: State, w: Waiter) {
    w.req.Some? && w.req.value < |s.requests|
  }

  predicate StepEnabled(s: State, w: Waiter, step: Step) {
    match step
    case Arrive => w.stage == Arriving
    case TakeGate => w.stage == AtGate && !s.gate
    case LeaveQueue => w.stage == AtGate && w.parent != Live
    case CheckParent => w.stage == HasGate
    case Release => w.stage == Refused && s.gate
    case ReceiveToken => w.stage == Selecting && HasRequest(s, w) && s.requests[w.req.value].result.Some?
    case ReceiveDone => w.stage == Selecting && HasRequest(s, w) && s.requests[w.req.value].ctx != Live
    case CheckToken => w.stage == GotToken && HasRequest(s, w) && w.token.Some?
    case ClearCurrent => w.stage == Finishing
    case CancelContext => w.stage == Cleared && HasRequest(s, w)
    case ReleaseGate => w.stage == Releasing && s.gate
  }

  predicate Enabled(s: State, e: Event) {
    match e
    case Run(t, step) => t < |s.waiters| && StepEnabled(s, s.waiters[t], step)
    case ParentEnds(t, how) => t < |s.waiters| && s.waiters[t].parent == Live && how != Live
    case RequestTimesOut(id) => id < |s.requests|
    case _ => true
  }

  function SetWaiter(s: State, t: nat, w: Waiter): State
    requires t < |s.waiters|
  {
    s.(waiters := s.waiters[t := w])
  }

  function SetRequest(s: State, id: nat, p: Pending): State
    requires id < |s.requests|
  {
    s.(requests := s.requests[id := p])
  }

  function RunStep(s: State, t: nat, step: Step): State
    requires Enabled(s, Run(t, step))
  {
    var w := s.waiters[t];
    match step
    case Arrive => SetWaiter(s, t, if w.parent != Live then w.(stage := Returned, how := w.parent) else w.(stage := AtGate))
    case TakeGate => SetWaiter(s.(gate := true), t, w.(stage := HasGate))
    case LeaveQueue => SetWaiter(s, t, w.(stage := Returned, how := w.parent))
    case CheckParent =>
      if w.parent != Live then SetWaiter(s, t, w.(stage := Refused, how := w.parent))
      else
        var id := |s.requests|;
        SetWaiter(s.(requests := s.requests + [Pending(t, Live, None, false, [])], current := Some(id)), t,
                  w.(stage := Selecting, req := Some(id)))
    case Release => SetWaiter(s.(gate := false), t, w.(stage := Returned))
    case ReceiveToken =>
      var p := s.requests[w.req.value];
      SetWaiter(SetRequest(s, w.req.value, p.(result := None)), t, w.(stage := GotToken, token := p.result))
    case ReceiveDone => SetWaiter(s, t, w.(stage := Finishing, how := s.requests[w.req.value].ctx))
    case CheckToken =>
      var ctx := s.requests[w.req.value].ctx;
      SetWaiter(s, t, if ctx != Live || Blank(w.token.value) then w.(stage := Finishing, token := None, how := ctx)
                      else w.(stage := Finishing))
    case ClearCurrent => SetWaiter(s.(current := if s.current == w.req then None else s.current), t, w.(stage := Cleared))
    case CancelContext =>
      var p := s.requests[w.req.value];
      SetWaiter(SetRequest(s, w.req.value, p.(ctx := End(p.ctx, Canceled))), t, w.(stage := Releasing))
    case ReleaseGate => SetWaiter(s.(gate := false), t, w.(stage := Returned))
  }

  /** A bridge call touches the current request only, and only when it is the one named. */
  predicate Reaches(s: State, id: nat) {
    s.current == Some(id) && id < |s.requests|
  }

  /** The request that an event from outside changes, and what it becomes. */
  function Outside(s: State, e: Event): Option<(nat, Pending)>
    requires Enabled(s, e)
  {
    match e
    case Run(_, _) => None
    case ParentEnds(t, how) =>
      // a request's context derives from its caller's
      if HasRequest(s, s.waiters[t]) then
        var id := s.waiters[t].req.value;
        Some((id, s.requests[id].(ctx := End(s.requests[id].ctx, how))))
      else None
    case RequestTimesOut(id) => Some((id, s.requests[id].(ctx := End(s.requests[id].ctx, TimedOut))))
    case SubmitToken(id, token) => if Reaches(s, id) then Some((id, Submitted(s.requests[id], token).0)) else None
    case CancelRequest(id) =>
      if Reaches(s, id) then Some((id, s.requests[id].(ctx := End(s.requests[id].ctx, Canceled)))) else None
    case OpenBrowser(id) => if Reaches(s, id) then Some((id, Opened(s.requests[id]).0)) else None
    case BrowserFailed(id) => if Reaches(s, id) then Some((id, s.requests[id].(launched := false))) else None
  }

  function Apply(s: State, e: Event): State
    requires Enabled(s, e)
  {
    if e.Run? then RunStep(s, e.t, e.step)
    else
      var change := Outside(s, e);
      var u := if change.Some? && change.value.0 < |s.requests| then SetRequest(s, change.value.0, change.value.1) else s;
      if e.ParentEnds? then SetWaiter(u, e.t, s.waiters[e.t].(parent := e.how)) else u
  }

  // ---------------------------------------------------------------- the invariant

  predicate HoldsGate(w: Waiter) {
    !w.stage.Arriving? && !w.stage.AtGate? && !w.stage.Returned?
  }

  /** While a request is open to bridge calls. */
  predicate IsOpen(w: Waiter) {
    w.stage.Selecting? || w.stage.GotToken? || w.stage.Finishing?
  }

  /** The waiter's request is its own, and current is that request while it is open. */
  ghost predicate WaiterOk(s: State, t: nat)
    requires t < |s.waiters|
  {
    var w := s.waiters[t];
    && (HoldsGate(w) ==> s.gate && s.current == if IsOpen(w) then w.req else None)
    && (IsOpen(w) || w.stage.Cleared? || w.stage.Releasing? ==> w.req.Some?)
    && (w.stage.Arriving? || w.stage.AtGate? || w.stage.HasGate? || w.stage.Refused? ==> w.req == None && w.token == None)
    && (w.req.Some? ==> w.req.value < |s.requests| && s.requests[w.req.value].owner == t)
    && (w.stage.Selecting? ==> w.token == None)
    && (w.stage.GotToken? ==> w.token.Some?)
    && (w.stage.Refused? || w.stage.Finishing? || w.stage.Cleared? || w.stage.Releasing? || w.stage.Returned? ==>
          (w.token == None ==> w.how != Live))
  }

  /** What the waiter has received, or finds in its channel, is the first token accepted for its
      request. */
  ghost predicate TokenOk(s: State, t: nat)
    requires t < |s.waiters|
  {
    var w := s.waiters[t];
    && (w.token.Some? ==>
          HasRequest(s, w) && [w.token.value] <= s.requests[w.req.value].accepted && !Blank(w.token.value))
    && (w.stage.Selecting? && HasRequest(s, w) ==>
          match s.requests[w.req.value].result
          case None => s.requests[w.req.value].accepted == []
          case Some(tok) => s.requests[w.req.value].accepted == [tok] && !Blank(tok))
  }

  ghost predicate OneHolder(s: State) {
    && (forall t, u :: 0 <= t < |s.waiters| && 0 <= u < |s.waiters| ==>
         (HoldsGate(s.waiters[t]) && HoldsGate(s.waiters[u]) ==> t == u))
    && (s.gate ==> exists t :: 0 <= t < |s.waiters| && HoldsGate(s.waiters[t]))
    && (s.current.Some? ==> s.gate && s.current.value < |s.requests|)
  }

  ghost predicate Inv(s: State) {
    && OneHolder(s)
    && (forall t :: 0 <= t < |s.waiters| ==> WaiterOk(s, t))
    && (forall t :: 0 <= t < |s.waiters| ==> TokenOk(s, t))
  }

  lemma StartInv(n: nat)
    ensures Inv(Start(n))
  {
  }

  lemma HolderAfter(s: State, e: Event, t: nat, u: nat)
    requires Inv(s) && Enabled(s, e) && t < |s.waiters| && u < |s.waiters|
    requires HoldsGate(Apply(s, e).waiters[t]) && HoldsGate(Apply(s, e).waiters[u])
    ensures u == t
  {
    assert WaiterOk(s, t) && WaiterOk(s, u);
  }

  lemma OneHolderAfter(s: State, e: Event)
    requires Inv(s) && Enabled(s, e)
    ensures OneHolder(Apply(s, e))
  {
    var v := Apply(s, e);
    forall t, u | 0 <= t < |v.waiters| && 0 <= u < |v.waiters| && HoldsGate(v.waiters[t]) && HoldsGate(v.waiters[u])
      ensures t == u
    {
      HolderAfter(s, e, t, u);
    }
    if e.Run? { assert WaiterOk(s, e.t); }
    if s.gate {
      var h :| 0 <= h < |s.waiters| && HoldsGate(s.waiters[h]);
      assert WaiterOk(s, h);
      assert v.gate ==> HoldsGate(v.waiters[h]);
    } else {
      assert v.gate ==> HoldsGate(v.waiters[e.t]);
    }
  }

  lemma OwnStep(s: State, t: nat, step: Step)
    requires Inv(s) && Enabled(s, Run(t, step))
    ensures WaiterOk(RunStep(s, t, step), t)
  {
    assert WaiterOk(s, t) && TokenOk(s, t);
  }

  lemma OthersStep(s: State, u: nat, step: Step, t: nat)
    requires Inv(s) && Enabled(s, Run(u, step)) && t < |s.waiters| && t != u
    ensures WaiterOk(RunStep(s, u, step), t)
  {
    assert WaiterOk(s, t) && WaiterOk(s, u);
    assert HoldsGate(s.waiters[u]) && HoldsGate(s.waiters[t]) ==> t == u;
  }

  lemma WaiterAfter(s: State, e: Event, t: nat)
    requires Inv(s) && Enabled(s, e) && t < |s.waiters|
    ensures WaiterOk(Apply(s, e), t)
  {
    if e.Run? {
      if e.t == t { OwnStep(s, t, e.step); } else { OthersStep(s, e.t, e.step, t); }
    } else {
      assert WaiterOk(s, t);
    }
  }

  /** What one event does to a request. */
  lemma RequestAfter(s: State, e: Event, id: nat)
    requires Inv(s) && Enabled(s, e) && id < |s.requests|
    ensures id < |Apply(s, e).requests|
    ensures var p, q := s.requests[id], Apply(s, e).requests[id];
            && q.owner == p.owner
            && (q.ctx == Live ==> p.ctx == Live) && (p.ctx != Live ==> q.ctx == p.ctx)
            && (if e.SubmitToken? && e.id == id && s.current == Some(id) then q == Submitted(p, e.token).0
                else q.accepted == p.accepted)
            && (q.result != p.result ==> q.accepted != p.accepted || (e.Run? && e.step.ReceiveToken? && s.waiters[e.t].req == Some(id)))
  {
  }

  lemma OwnToken(s: State, t: nat, step: Step)
    requires Inv(s) && Enabled(s, Run(t, step))
    ensures TokenOk(RunStep(s, t, step), t)
  {
    assert WaiterOk(s, t) && TokenOk(s, t);
  }

  /** What other connections and the bridge do to a waiter's channel and accepted tokens. */
  lemma OthersToken(s: State, e: Event, t: nat)
    requires Inv(s) && Enabled(s, e) && t < |s.waiters| && !(e.Run? && e.t == t)
    ensures TokenOk(Apply(s, e), t)
  {
    var w, v := s.waiters[t], Apply(s, e).waiters[t];
    assert WaiterOk(s, t) && TokenOk(s, t);
    assert v.stage == w.stage && v.req == w.req && v.token == w.token;
    if w.req.Some? {
      RequestAfter(s, e, w.req.value);
      if e.Run? {
        assert WaiterOk(s, e.t);
      }
    }
  }

  lemma TokenAfter(s: State, e: Event, t: nat)
    requires Inv(s) && Enabled(s, e) && t < |s.waiters|
    ensures TokenOk(Apply(s, e), t)
  {
    if e.Run? && e.t == t { OwnToken(s, t, e.step); } else { OthersToken(s, e, t); }
  }

  lemma StepKeepsInv(s: State, e: Event)
    requires Inv(s) && Enabled(s, e)
    ensures Inv(Apply(s, e)) && |Apply(s, e).waiters| == |s.waiters|
  {
    OneHolderAfter(s, e);
    forall t | 0 <= t < |s.waiters| ensures WaiterOk(Apply(s, e), t) { WaiterAfter(s, e, t); }
    forall t | 0 <= t < |s.waiters| ensures TokenOk(Apply(s, e), t) { TokenAfter(s, e, t); }
  }

  predicate Runs(s: State, events: seq<Event>)
    decreases |events|
  {
    events == [] || (Enabled(s, events[0]) && Runs(Apply(s, events[0]), events[1..]))
  }

  function Final(s: State, events: seq<Event>): State
    requires Runs(s, events)
    decreases |events|
  {
    if events == [] then s else Final(Apply(s, events[0]), events[1..])
  }

  lemma {:induction false} RunKeepsInv(s: State, events: seq<Event>)
    requires Inv(s) && Runs(s, events)
    ensures Inv(Final(s, events)) && |Final(s, events).waiters| == |s.waiters|
    decreases |events|
  {
    if events != [] {
      StepKeepsInv(s, events[0]);
      RunKeepsInv(Apply(s, events[0]), events[1..]);
    }
  }

  // ---------------------------------------------------------------- what every run guarantees

  /** The gate is held exactly while one connection is between taking it and giving it back, and the
      current request is that connection's own while it is open, and none otherwise. */
  lemma GateAndCurrent(n: nat, events: seq<Event>)
    requires Runs(Start(n), events)
    ensures var s := Final(Start(n), events);
            && (s.gate <==> exists t :: 0 <= t < |s.waiters| && HoldsGate(s.waiters[t]))
            && (forall t, u :: 0 <= t < |s.waiters| && 0 <= u < |s.waiters| ==>
                  (HoldsGate(s.waiters[t]) && HoldsGate(s.waiters[u]) ==> t == u))
            && (forall t :: 0 <= t < |s.waiters| && HoldsGate(s.waiters[t]) ==>
                  s.current == if IsOpen(s.waiters[t]) then s.waiters[t].req else None)
            && (s.current.Some? ==> s.gate)
  {
    StartInv(n);
    RunKeepsInv(Start(n), events);
    var s := Final(Start(n), events);
    forall t | 0 <= t < |s.waiters| && HoldsGate(s.waiters[t])
      ensures s.gate && s.current == if IsOpen(s.waiters[t]) then s.waiters[t].req else None
    {
      assert WaiterOk(s, t);
    }
  }

  /** A token returned by a connection is the first one accepted for the request that connection
      opened itself; without a token it returns the error of an ended context. */
  lemma ReturnedTokenIsFirstForOwnRequest(n: nat, events: seq<Event>, t: nat)
    requires Runs(Start(n), events) && t < n
    ensures var s := Final(Start(n), events);
            |s.waiters| == n &&
            var w := s.waiters[t];
            w.stage.Returned? ==>
              if w.token == None then w.how != Live
              else
                && w.req.Some? && w.req.value < |s.requests|
                && s.requests[w.req.value].owner == t
                && s.requests[w.req.value].accepted != []
                && s.requests[w.req.value].accepted[0] == w.token.value
                && !Blank(w.token.value)
  {
    StartInv(n);
    RunKeepsInv(Start(n), events);
    var s := Final(Start(n), events);
    assert WaiterOk(s, t) && TokenOk(s, t);
  }

  /** No connection has passed the context check of request id with a token. */
  predicate NoTokenYet(s: State, id: nat) {
    forall t :: 0 <= t < |s.waiters| && s.waiters[t].req == Some(id) && s.waiters[t].token.Some? ==> s.waiters[t].stage.GotToken?
  }

  lemma DeadStep(s: State, e: Event, id: nat)
    requires Inv(s) && Enabled(s, e)
    requires id < |s.requests| && s.requests[id].ctx != Live && NoTokenYet(s, id)
    ensures var u := Apply(s, e);
            && id < |u.requests| && u.requests[id].ctx == s.requests[id].ctx && NoTokenYet(u, id)
            && u.requests[id].accepted == s.requests[id].accepted
  {
    RequestAfter(s, e, id);
    if e.Run? { assert WaiterOk(s, e.t); }
  }

  /** Once a request has been canceled, has timed out or has lost its caller before a token passed
      the final check, nothing that happens later makes it accept or return a token. */
  lemma {:induction false} DeadRequestStaysDead(s: State, events: seq<Event>, id: nat)
    requires Inv(s) && Runs(s, events)
    requires id < |s.requests| && s.requests[id].ctx != Live && NoTokenYet(s, id)
    ensures var u := Final(s, events);
            && id < |u.requests| && u.requests[id].ctx == s.requests[id].ctx && NoTokenYet(u, id)
            && u.requests[id].accepted == s.requests[id].accepted
    decreases |events|
  {
    if events != [] {
      StepKeepsInv(s, events[0]);
      DeadStep(s, events[0], id);
      DeadRequestStaysDead(Apply(s, events[0]), events[1..], id);
    }
  }

  /** The steps that a gate holder whose request has ended still takes on its own. */
  function Unwind(t: nat, stage: Stage): seq<Event> {
    var cleared := [Run(t, CancelContext), Run(t, ReleaseGate)];
    var finishing := [Run(t, ClearCurrent)] + cleared;
    match stage
    case HasGate => [Run(t, CheckParent), Run(t, Release)]
    case Refused => [Run(t, Release)]
    case Selecting => [Run(t, ReceiveDone)] + finishing
    case GotToken => [Run(t, CheckToken)] + finishing
    case Finishing => finishing
    case Cleared => cleared
    case Releasing => [Run(t, ReleaseGate)]
    case _ => []
  }

  /** Every path out frees the gate: in any reachable state, a holder that has its answer, or whose
      request or caller has ended, can run on alone until the gate is free. */
  lemma {:induction false} EveryPathFreesTheGate(s: State, t: nat)
    requires Inv(s) && t < |s.waiters| && HoldsGate(s.waiters[t])
    requires s.waiters[t].stage.HasGate? ==> s.waiters[t].parent != Live
    requires s.waiters[t].stage.Selecting? && HasRequest(s, s.waiters[t]) ==> s.requests[s.waiters[t].req.value].ctx != Live
    ensures var es := Unwind(t, s.waiters[t].stage);
            && Runs(s, es) && !Final(s, es).gate && Final(s, es).current == None
            && |Final(s, es).waiters| == |s.waiters| && Final(s, es).waiters[t].stage.Returned?
    decreases |Unwind(t, s.waiters[t].stage)|
  {
    assert WaiterOk(s, t);
    var es := Unwind(t, s.waiters[t].stage);
    StepKeepsInv(s, es[0]);
    var u := Apply(s, es[0]);
    assert es[1..] == Unwind(t, u.waiters[t].stage);
    if HoldsGate(u.waiters[t]) {
      EveryPathFreesTheGate(u, t);
    }
  }

  // ---------------------------------------------------------------- a challenge that is solved

  lemma RunOne(s: State, e: Event)
    requires Enabled(s, e)
    ensures Runs(s, [e]) && Final(s, [e]) == Apply(s, e)
  {
    assert [e][1..] == [];
  }

  lemma {:induction false} RunsJoin(s: State, a: seq<Event>, b: seq<Event>)
    requires Runs(s, a) && Runs(Final(s, a), b)
    ensures Runs(s, a + b) && Final(s, a + b) == Final(Final(s, a), b)
    decreases |a|
  {
    if a == [] {
      assert a + b == b;
    } else {
      hide Enabled, Apply;
      assert (a + b)[1..] == a[1..] + b;
      RunsJoin(Apply(s, a[0]), a[1..], b);
    }
  }

  lemma RunNext(s: State, a: seq<Event>, e: Event)
    requires Runs(s, a) && Enabled(Final(s, a), e)
    ensures Runs(s, a + [e]) && Final(s, a + [e]) == Apply(Final(s, a), e)
  {
    RunOne(Final(s, a), e);
    RunsJoin(s, a, [e]);
  }

  /** Connection t waits for the answer to its challenge id, which is live and has no answer yet. */
  ghost predicate AwaitsAnswer(s: State, t: nat, id: nat) {
    && t < |s.waiters| && s.waiters[t].stage == Selecting && s.waiters[t].req == Some(id)
    && id < |s.requests| && s.requests[id].ctx == Live && s.requests[id].result == None
  }

  /** The bridge submits a token, and the connection runs on with it. */
  function Solve(t: nat, id: nat, token: string): seq<Event> {
    [SubmitToken(id, token)] + [Run(t, ReceiveToken)] + [Run(t, CheckToken)]
    + [Run(t, ClearCurrent)] + [Run(t, CancelContext)] + [Run(t, ReleaseGate)]
  }

  /** The token that the bridge submits for an open challenge is the one that its connection returns,
      and the gate is free for the next one. */
  lemma SubmittedTokenIsReturned(s: State, t: nat, id: nat, token: string)
    requires Inv(s) && AwaitsAnswer(s, t, id) && Strings.TrimSpace(token) != ""
    ensures Runs(s, Solve(t, id, token))
    ensures var u := Final(s, Solve(t, id, token));
            && |u.waiters| == |s.waiters| && u.waiters[t].stage == Returned && u.waiters[t].token == Some(token)
            && u.requests == s.requests[id := s.requests[id].(ctx := Canceled, accepted := s.requests[id].accepted + [token])]
            && !u.gate && u.current == None
            && forall k :: 0 <= k < |s.waiters| && k != t ==> u.waiters[k] == s.waiters[k]
  {
    assert WaiterOk(s, t);
    BlankMeaning(token);
    var p := s.requests[id];
    var filled := p.(result := Some(token), accepted := p.accepted + [token]);
    RunOne(s, SubmitToken(id, token));
    var s1 := Final(s, [SubmitToken(id, token)]);
    assert s1 == SetRequest(s, id, filled);
    RunNext(s, [SubmitToken(id, token)], Run(t, ReceiveToken));
    var es := [SubmitToken(id, token)] + [Run(t, ReceiveToken)];
    var got := s.waiters[t].(stage := GotToken, token := Some(token));
    assert Final(s, es) == SetWaiter(SetRequest(s, id, filled.(result := None)), t, got);
    RunNext(s, es, Run(t, CheckToken));
    assert Final(s, es + [Run(t, CheckToken)]) == SetWaiter(SetRequest(s, id, filled.(result := None)), t, got.(stage := Finishing));
    FinishAlone(Final(s, es + [Run(t, CheckToken)]), t, id);
    RunsJoin(s, es + [Run(t, CheckToken)], [Run(t, ClearCurrent)] + [Run(t, CancelContext)] + [Run(t, ReleaseGate)]);
    assert Solve(t, id, token)
        == es + [Run(t, CheckToken)] + ([Run(t, ClearCurrent)] + [Run(t, CancelContext)] + [Run(t, ReleaseGate)]);
  }

  lemma FinishAlone(s: State, t: nat, id: nat)
    requires t < |s.waiters| && s.waiters[t].stage == Finishing && s.waiters[t].req == Some(id) && s.current == Some(id) && s.gate
    requires id < |s.requests| && s.requests[id].ctx == Live
    ensures var es := [Run(t, ClearCurrent)] + [Run(t, CancelContext)] + [Run(t, ReleaseGate)];
            && Runs(s, es)
            && Final(s, es) == State(false, None, s.requests[id := s.requests[id].(ctx := Canceled)],
                                     s.waiters[t := s.waiters[t].(stage := Returned)])
  {
    RunOne(s, Run(t, ClearCurrent));
    RunNext(s, [Run(t, ClearCurrent)], Run(t, CancelContext));
    RunNext(s, [Run(t, ClearCurrent)] + [Run(t, CancelContext)], Run(t, ReleaseGate));
  }

  function OpenChallenge(t: nat): seq<Event> {
    [Run(t, Arrive)] + [Run(t, TakeGate)] + [Run(t, CheckParent)]
  }

  /** A connection with a live context that finds the gate free opens a challenge of its own. */
  lemma FreeGateOpensChallenge(s: State, t: nat)
    requires Inv(s) && t < |s.waiters| && s.waiters[t].stage == Arriving && s.waiters[t].parent == Live && !s.gate
    ensures Runs(s, OpenChallenge(t))
    ensures var u := Final(s, OpenChallenge(t));
            && Inv(u) && AwaitsAnswer(u, t, |s.requests|) && u.current == Some(|s.requests|) && u.gate
            && |u.requests| == |s.requests| + 1 && u.requests[|s.requests|] == Pending(t, Live, None, false, [])
  {
    RunOne(s, Run(t, Arrive));
    RunNext(s, [Run(t, Arrive)], Run(t, TakeGate));
    RunNext(s, [Run(t, Arrive)] + [Run(t, TakeGate)], Run(t, CheckParent));
    RunKeepsInv(s, OpenChallenge(t));
  }

  /** From any reachable state with a free gate, a connection that arrives with a live context can open
      its challenge and return the token that is then submitted for it. */
  lemma ChallengeCanBeSolved(n: nat, events: seq<Event>, t: nat, token: string)
    requires Runs(Start(n), events) && t < n && Strings.TrimSpace(token) != ""
    requires var s := Final(Start(n), events);
             |s.waiters| == n && s.waiters[t].stage == Arriving && s.waiters[t].parent == Live && !s.gate
    ensures var s := Final(Start(n), events);
            var es := OpenChallenge(t) + Solve(t, |s.requests|, token);
            && Runs(s, es) && |Final(s, es).waiters| == n
            && Final(s, es).waiters[t].stage == Returned && Final(s, es).waiters[t].token == Some(token) && !Final(s, es).gate
  {
    hide Inv, AwaitsAnswer, OpenChallenge, Solve;
    StartInv(n);
    RunKeepsInv(Start(n), events);
    var s := Final(Start(n), events);
    FreeGateOpensChallenge(s, t);
    RunKeepsInv(s, OpenChallenge(t));
    SubmittedTokenIsReturned(Final(s, OpenChallenge(t)), t, |s.requests|, token);
    RunsJoin(s, OpenChallenge(t), Solve(t, |s.requests|, token));
  }

  // ---------------------------------------------------------------- a challenge that ends otherwise

  /** How an event ends the challenge id of connection t, if it does. */
  predicate EndsBy(e: Event, t: nat, id: nat, how: Ctx) {
    || (e == CancelRequest(id) && how == Canceled)
    || (e == RequestTimesOut(id) && how == TimedOut)
    || (e == ParentEnds(t, how) && how != Live)
  }

  /** A challenge that is canceled, times out or loses its caller before an answer makes its connection
      return that error, and frees the gate. */
  lemma EndedChallengeIsReturned(s: State, t: nat, id: nat, e: Event, how: Ctx)
    requires Inv(s) && AwaitsAnswer(s, t, id) && EndsBy(e, t, id, how) && (e.ParentEnds? ==> s.waiters[t].parent == Live)
    ensures var es := [e] + [Run(t, ReceiveDone)] + ([Run(t, ClearCurrent)] + [Run(t, CancelContext)] + [Run(t, ReleaseGate)]);
            && Runs(s, es)
            && var u := Final(s, es);
               && |u.waiters| == |s.waiters| && u.waiters[t].stage == Returned && u.waiters[t].token == None && u.waiters[t].how == how
               && u.requests == s.requests[id := s.requests[id].(ctx := how)] && !u.gate && u.current == None
  {
    assert WaiterOk(s, t);
    RunOne(s, e);
    var s1 := Final(s, [e]);
    assert s1.requests == s.requests[id := s.requests[id].(ctx := how)];
    RunNext(s, [e], Run(t, ReceiveDone));
    var s2 := Final(s, [e] + [Run(t, ReceiveDone)]);
    assert s2.waiters[t].stage == Finishing && s2.waiters[t].token == None && s2.waiters[t].how == how && s2.waiters[t].req == Some(id);
    FinishEnded(s2, t, id, how);
    RunsJoin(s, [e] + [Run(t, ReceiveDone)], [Run(t, ClearCurrent)] + [Run(t, CancelContext)] + [Run(t, ReleaseGate)]);
  }

  lemma FinishEnded(s: State, t: nat, id: nat, how: Ctx)
    requires t < |s.waiters| && s.waiters[t].stage == Finishing && s.waiters[t].req == Some(id) && s.current == Some(id) && s.gate
    requires id < |s.requests| && s.requests[id].ctx == how && how != Live
    ensures var es := [Run(t, ClearCurrent)] + [Run(t, CancelContext)] + [Run(t, ReleaseGate)];
            Runs(s, es) && Final(s, es) == State(false, None, s.requests, s.waiters[t := s.waiters[t].(stage := Returned)])
  {
    RunOne(s, Run(t, ClearCurrent));
    RunNext(s, [Run(t, ClearCurrent)], Run(t, CancelContext));
    RunNext(s, [Run(t, ClearCurrent)] + [Run(t, CancelContext)], Run(t, ReleaseGate));
    assert s.requests[id := s.requests[id]] == s.requests;
  }

  /** A caller whose context has ended returns its error without a challenge: at once when it arrives, from
      the queue, or with the gate, which it gives back. */
  lemma EndedCallerLeaves(s: State, t: nat)
    requires t < |s.waiters| && s.waiters[t].parent != Live
    ensures var gone := s.waiters[t].(stage := Returned, how := s.waiters[t].parent);
            && (s.waiters[t].stage == Arriving ==>
                  Enabled(s, Run(t, Arrive)) && Apply(s, Run(t, Arrive)) == s.(waiters := s.waiters[t := gone]))
            && (s.waiters[t].stage == AtGate ==>
                  Enabled(s, Run(t, LeaveQueue)) && Apply(s, Run(t, LeaveQueue)) == s.(waiters := s.waiters[t := gone]))
            && (s.waiters[t].stage == HasGate && s.gate ==>
                  && Runs(s, [Run(t, CheckParent)] + [Run(t, Release)])
                  && Final(s, [Run(t, CheckParent)] + [Run(t, Release)]) == s.(gate := false, waiters := s.waiters[t := gone]))
  {
    if s.waiters[t].stage == HasGate && s.gate {
      RunOne(s, Run(t, CheckParent));
      RunNext(s, [Run(t, CheckParent)], Run(t, Release));
    }
  }

  /** The bridge reaches the current challenge alone.  Opening marks a live one that is not open yet, a
      failed launch lets it be opened again. */
  lemma BridgeReachesCurrent(s: State, id: nat, token: string)
    ensures s.current != Some(id) ==>
              Apply(s, OpenBrowser(id)) == Apply(s, BrowserFailed(id)) == Apply(s, CancelRequest(id)) == Apply(s, SubmitToken(id, token)) == s
    ensures s.current == Some(id) && id < |s.requests| ==>
              var p := s.requests[id];
              && Apply(s, OpenBrowser(id)) == s.(requests := s.requests[id := p.(launched := p.launched || p.ctx == Live)])
              && Apply(s, BrowserFailed(id)) == s.(requests := s.requests[id := p.(launched := false)])
              && Apply(s, CancelRequest(id)) == s.(requests := s.requests[id := p.(ctx := if p.ctx == Live then Canceled else p.ctx)])
              && Apply(s, SubmitToken(id, token))
                 == s.(requests := s.requests[id :=
                      if p.ctx == Live && p.result == None && Strings.TrimSpace(token) != ""
                      then p.(result := Some(token), accepted := p.accepted + [token]) else p])
  {
    BlankMeaning(token);
  }
}
