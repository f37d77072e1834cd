/**
 The packet dispatcher (core/dispatcher.go) and the session threads around it (core/session.go).

 The class is the dispatcher's own code.  The state machine below it runs the read loop, the write
 loop and every session's two relay threads together, over pooled buffers, one step at a time: the
 read loop's load of the worker list and its test of each queue are steps of their own.
 */
module Dispatcher {
  import opened Wrappers
  import opened RoundRobin

  /** Capacities of a worker's SendCh and of ReturnCh. */
  const SEND_BUF := 128
  const RETURN_BUF := 512

  class WorkerSlot<P> {
    const id: int
    var sendCh: seq<P>

    constructor (id: int)
      ensures this.id == id && sendCh == []
    {
      this.id := id;
      sendCh := [];
    }
  }

  /** Which of the workers' queues accept a packet now. */
  function RoomOf<P>(ws: seq<WorkerSlot<P>>): (room: seq<bool>)
    reads ws
    ensures |room| == |ws|
    ensures forall i :: 0 <= i < |ws| ==> (room[i] <==> |ws[i].sendCh| < SEND_BUF)
  {
    if ws == [] then [] else [|ws[0].sendCh| < SEND_BUF] + RoomOf(ws[1..])
  }

  function Without<T(==)>(ws: seq<T>, slot: T): (r: seq<T>)
    ensures forall i :: 0 <= i < |r| ==> r[i] in ws && r[i] != slot
    ensures forall i :: 0 <= i < |ws| && ws[i] != slot ==> ws[i] in r
  {
    if ws == [] then [] else (if ws[0] != slot then [ws[0]] else []) + Without(ws[1..], slot)
  }

  lemma {:induction false} WithoutAppend<T>(ws: seq<T>, w: T, slot: T)
    ensures Without(ws + [w], slot) == Without(ws, slot) + (if w != slot then [w] else [])
  {
    if ws != [] {
      assert (ws + [w])[1..] == ws[1..] + [w];
      WithoutAppend(ws[1..], w, slot);
    }
  }

  /** Unregistering a slot undoes its registration and leaves the order of the others alone. */
  lemma {:induction false} UnregisterUndoesRegister<T>(ws: seq<T>, slot: T)
    requires slot !in ws
    ensures Without(ws + [slot], slot) == ws
  {
    WithoutAppend(ws, slot, slot);
    if ws != [] {
      WithoutAppend(ws[1..], slot, slot);
      assert [ws[0]] + ws[1..] == ws;
      UnregisterUndoesRegister(ws[1..], slot);
    }
  }

  class Dispatcher<P> {
    var workers: seq<WorkerSlot<P>>
    var rrIndex: nat
    var rrCount: nat

    constructor ()
      ensures workers == [] && Scheduler() == Sched(0, 0)
    {
      workers, rrIndex, rrCount := [], 0, 0;
    }

    function Scheduler(): Sched
      reads this
    {
      Sched(rrIndex, rrCount)
    }

    method Register(w: WorkerSlot<P>)
      modifies this`workers
      ensures workers == old(workers) + [w]
    {
      workers := workers + [w];
    }

    method Unregister(slot: WorkerSlot<P>)
      modifies this`workers
      ensures workers == Without(old(workers), slot)
    {
      var newWorkers := [];
      for i := 0 to |workers|
        invariant workers == old(workers)
        invariant newWorkers == Without(workers[..i], slot)
      {
        assert workers[..i + 1] == workers[..i] + [workers[i]];
        WithoutAppend(workers[..i], workers[i], slot);
        if workers[i] != slot {
          newWorkers := newWorkers + [workers[i]];
        }
      }
      assert workers[..|workers|] == workers;
      workers := newWorkers;
    }

    /** What the read loop does with one packet it has read. */
    method Dispatch(pkt: P) returns (outcome: Outcome)
      modifies this`rrIndex, this`rrCount, workers
      ensures outcome == Route(old(Scheduler()), old(RoomOf(workers))).1
      ensures Scheduler() == Route(old(Scheduler()), old(RoomOf(workers))).0
      ensures outcome.Sent? ==>
                && outcome.worker < |workers|
                && workers[outcome.worker].sendCh == old(workers[outcome.worker].sendCh) + [pkt]
                && forall w :: w in workers && w != workers[outcome.worker] ==> w.sendCh == old(w.sendCh)
      ensures outcome == Dropped ==> forall w :: w in workers ==> w.sendCh == old(w.sendCh)
    {
      if |workers| == 0 {
        return Dropped;
      }
      var ws := workers;
      ghost var room := RoomOf(ws);
      var nw := |ws|;
      var idx := rrIndex % nw;
      if |ws[idx].sendCh| < SEND_BUF {
        ws[idx].sendCh := ws[idx].sendCh + [pkt];
        rrCount := rrCount + 1;
        if rrCount >= CHUNK {
          rrIndex := (idx + 1) % nw;
          rrCount := 0;
        }
        return Sent(idx);
      }
      var i := 1;
      while i < nw
        invariant 1 <= i <= nw
        invariant forall w :: w in workers ==> w.sendCh == old(w.sendCh)
        invariant rrIndex == old(rrIndex) && rrCount == old(rrCount)
        invariant Scan(room, idx, 1) == Scan(room, idx, i)
      {
        var altIdx := Place(nw, idx, i);
        if |ws[altIdx].sendCh| < SEND_BUF {
          ws[altIdx].sendCh := ws[altIdx].sendCh + [pkt];
          rrIndex, rrCount := altIdx, 1;
          return Sent(altIdx);
        }
        i := i + 1;
      }
      rrIndex, rrCount := (idx + 1) % nw, 0;
      return Dropped;
    }
  }

  // ---------------------------------------------------------------- all threads together

  /** A packet read from the local socket: its serial number in reading order, and its buffer. */
  datatype Packet = Packet(serial: nat, buf: nat)

  datatype Fate = To(slot: nat) | Lost

  /** One session: its SendCh, what its writer and reader threads hold, and the serials its writer
      has taken so far. */
  datatype Session = Session(queue: seq<Packet>, writing: Option<Packet>, reading: Option<nat>, taken: seq<nat>)

  /** One packet on its way to a queue: the worker list that was loaded for it, and the lengths of
      the queues tested so far. */
  datatype Attempt = Attempt(workers: seq<nat>, found: seq<nat>)

  datatype State = State(
    sched: Sched,
    registered: seq<nat>,       // positions in sessions, in registration order
    sessions: seq<Session>,     // every session ever started
    returnCh: seq<nat>,
    local: Option<nat>,         // buffer held by the read loop
    attempt: Option<Attempt>,
    relay: Option<nat>,         // buffer held by the write loop
    pool: multiset<nat>,
    next: nat,                  // buffers allocated so far
    fates: seq<Fate>)           // what became of each packet read

  datatype Event =
    | LocalGet(pooled: Option<nat>) | LocalFail | LocalLoad | LocalTry
    | RelayTake | RelayDone
    | SessionStart | SessionEnd(slot: nat)
    | WriterTake(slot: nat) | WriterDone(slot: nat)
    | ReaderGet(slot: nat, pooled: Option<nat>) | ReaderPut(slot: nat) | ReaderReturn(slot: nat)
    | PoolForget(buf: nat)

  const INIT := State(Sched(0, 0), [], [], [], None, None, None, multiset{}, 0, [])

  predicate Enabled(s: State, e: Event) {
    match e
    case LocalGet(b) => s.local == None && (b == None || b.value in s.pool)
    case LocalFail | LocalLoad => s.local.Some? && s.attempt == None
    case LocalTry => s.local.Some? && s.attempt.Some?
    case RelayTake => s.relay == None && s.returnCh != []
    case RelayDone => s.relay.Some?
    case SessionStart => true
    case SessionEnd(i) => i < |s.sessions|
    case WriterTake(i) => i < |s.sessions| && s.sessions[i].writing == None && s.sessions[i].queue != []
    case WriterDone(i) => i < |s.sessions| && s.sessions[i].writing.Some?
    case ReaderGet(i, b) => i < |s.sessions| && s.sessions[i].reading == None && (b == None || b.value in s.pool)
    case ReaderPut(i) => i < |s.sessions| && s.sessions[i].reading.Some?
    case ReaderReturn(i) => i < |s.sessions| && s.sessions[i].reading.Some? && |s.returnCh| < RETURN_BUF
    case PoolForget(b) => b in s.pool
  }

  /** getPktBuf: a pooled buffer, or a newly allocated one. */
  function Get(s: State, pooled: Option<nat>): (State, nat) {
    match pooled
    case Some(b) => (s.(pool := s.pool - multiset{b}), b)
    case None => (s.(next := s.next + 1), s.next)
  }

  /** putPktBuf. */
  function Put(s: State, b: nat): State {
    s.(pool := s.pool + multiset{b})
  }

  /** The length of a session's queue. */
  function Waiting(s: State, slot: nat): nat {
    if slot < |s.sessions| then |s.sessions[slot].queue| else SEND_BUF
  }

  /** Which queues of a worker list have room now. */
  function Rooms(s: State, ws: seq<nat>): (room: seq<bool>)
    ensures |room| == |ws|
    ensures forall i :: 0 <= i < |room| ==> (room[i] <==> Waiting(s, ws[i]) < SEND_BUF)
  {
    seq(|ws|, i requires 0 <= i < |ws| => Waiting(s, ws[i]) < SEND_BUF)
  }

  /** The packet goes to the queue of a slot. */
  function Enqueue(s: State, slot: nat): State
    requires s.local.Some? && slot < |s.sessions|
  {
    var session := s.sessions[slot];
    s.(sessions := s.sessions[slot := session.(queue := session.queue + [Packet(|s.fates|, s.local.value)])],
       fates := s.fates + [To(slot)], local := None, attempt := None)
  }

  /** The packet is dropped, and its buffer goes back to the pool. */
  function Drop(s: State): State
    requires s.local.Some?
  {
    Put(s.(fates := s.fates + [Lost], local := None, attempt := None), s.local.value)
  }

  /** The slot whose queue is tested next. */
  function NextSlot(s: State): nat
    requires s.attempt.Some? && |s.attempt.value.found| < |s.attempt.value.workers|
  {
    var ws := s.attempt.value.workers;
    ws[Place(|ws|, s.sched.index % |ws|, |s.attempt.value.found|)]
  }

  /** The read loop tests the next queue for the packet it holds. */
  function TryQueue(s: State): State
    requires s.local.Some? && s.attempt.Some?
  {
    var a := s.attempt.value;
    var n, k := |a.workers|, |a.found|;
    if k >= n then Drop(s)
    else
      var slot := NextSlot(s);
      var waiting := Waiting(s, slot);
      match Try(s.sched, n, k, waiting < SEND_BUF)
      case Goes(sched, _) => if slot < |s.sessions| then Enqueue(s, slot).(sched := sched) else s
      case Next => s.(attempt := Some(a.(found := a.found + [waiting])))
      case Drops(sched) => Drop(s).(sched := sched)
  }

  function Apply(s: State, e: Event): State
    requires Enabled(s, e)
  {
    match e
    case LocalGet(b) => var (t, buf) := Get(s, b); t.(local := Some(buf))
    case LocalFail => Put(s.(local := None), s.local.value)
    case LocalLoad => s.(attempt := Some(Attempt(s.registered, [])))
    case LocalTry => TryQueue(s)
    case RelayTake => s.(relay := Some(s.returnCh[0]), returnCh := s.returnCh[1..])
    case RelayDone => Put(s.(relay := None), s.relay.value)
    case SessionStart =>
      s.(sessions := s.sessions + [Session([], None, None, [])], registered := s.registered + [|s.sessions|])
    case SessionEnd(i) => s.(registered := Without(s.registered, i))
    case WriterTake(i) =>
      var session := s.sessions[i];
      var p := session.queue[0];
      s.(sessions := s.sessions[i := session.(writing := Some(p), queue := session.queue[1..], taken := session.taken + [p.serial])])
    case WriterDone(i) =>
      var session := s.sessions[i];
      Put(s.(sessions := s.sessions[i := session.(writing := None)]), session.writing.value.buf)
    case ReaderGet(i, b) =>
      var (t, buf) := Get(s, b);
      t.(sessions := s.sessions[i := s.sessions[i].(reading := Some(buf))])
    case ReaderPut(i) =>
      var session := s.sessions[i];
      Put(s.(sessions := s.sessions[i := session.(reading := None)]), session.reading.value)
    case ReaderReturn(i) =>
      var session := s.sessions[i];
      s.(sessions := s.sessions[i := session.(reading := None)], returnCh := s.returnCh + [session.reading.value])
    case PoolForget(b) => s.(pool := s.pool - multiset{b})
  }

  // ---------------------------------------------------------------- who owns which buffer

  function HeldIn(o: Option<nat>, b: nat): nat {
    if o == Some(b) then 1 else 0
  }

  function InQueue(q: seq<Packet>, b: nat): nat {
    if q == [] then 0 else InQueue(q[..|q| - 1], b) + (if q[|q| - 1].buf == b then 1 else 0)
  }

  function InChannel(q: seq<nat>, b: nat): nat {
    if q == [] then 0 else InChannel(q[..|q| - 1], b) + (if q[|q| - 1] == b then 1 else 0)
  }

  function InSession(x: Session, b: nat): nat {
    InQueue(x.queue, b) + (if x.writing.Some? && x.writing.value.buf == b then 1 else 0) + HeldIn(x.reading, b)
  }

  function InSessions(xs: seq<Session>, b: nat): nat {
    if xs == [] then 0 else InSessions(xs[..|xs| - 1], b) + InSession(xs[|xs| - 1], b)
  }

  /** In how many places a buffer is: session queues and threads, ReturnCh, the two loops, the pool. */
  function Owners(s: State, b: nat): nat {
    InSessions(s.sessions, b) + InChannel(s.returnCh, b) + HeldIn(s.local, b) + HeldIn(s.relay, b) + s.pool[b]
  }

  lemma QueueAppend(q: seq<Packet>, p: Packet, b: nat)
    ensures InQueue(q + [p], b) == InQueue(q, b) + (if p.buf == b then 1 else 0)
  {
    assert (q + [p])[..|q|] == q;
  }

  lemma {:induction false} QueueTake(q: seq<Packet>, b: nat)
    requires q != []
    ensures InQueue(q, b) == InQueue(q[1..], b) + (if q[0].buf == b then 1 else 0)
  {
    var n := |q| - 1;
    if n > 0 {
      assert q[..n][1..] == q[1..][..n - 1];
      QueueTake(q[..n], b);
    }
  }

  lemma ChannelAppend(q: seq<nat>, x: nat, b: nat)
    ensures InChannel(q + [x], b) == InChannel(q, b) + (if x == b then 1 else 0)
  {
    assert (q + [x])[..|q|] == q;
  }

  lemma {:induction false} ChannelTake(q: seq<nat>, b: nat)
    requires q != []
    ensures InChannel(q, b) == InChannel(q[1..], b) + (if q[0] == b then 1 else 0)
  {
    var n := |q| - 1;
    if n > 0 {
      assert q[..n][1..] == q[1..][..n - 1];
      ChannelTake(q[..n], b);
    }
  }

  lemma {:induction false} UpdateSession(xs: seq<Session>, i: nat, x: Session, b: nat)
    requires i < |xs|
    ensures InSessions(xs[i := x], b) == InSessions(xs, b) - InSession(xs[i], b) + InSession(x, b)
  {
    var last := |xs| - 1;
    if i < last {
      assert xs[i := x][..last] == xs[..last][i := x];
      UpdateSession(xs[..last], i, x, b);
    } else {
      assert xs[i := x][..last] == xs[..last];
    }
  }

  /** The buffer that an event allocates, when it finds none to reuse. */
  predicate Allocates(e: Event) {
    (e.LocalGet? || e.ReaderGet?) && e.pooled == None
  }

  /** No step gives a buffer a second owner: the number of owners stays as it is, except that a new
      buffer gets its first and a forgotten one loses its only one. */
  lemma OwnersAfter(s: State, e: Event, b: nat)
    requires Enabled(s, e)
    ensures Owners(Apply(s, e), b) ==
            Owners(s, b) + (if Allocates(e) && b == s.next then 1 else 0) - (if e == PoolForget(b) then 1 else 0)
    ensures Apply(s, e).next == if Allocates(e) then s.next + 1 else s.next
  {
    hide InSessions, InChannel, InSession, TryQueue;
    match e
    case LocalTry =>
      OwnersAfterTry(s, b);
      TryKeepsNext(s);
    case RelayTake => ChannelTake(s.returnCh, b);
    case SessionStart => NewSessionOwnsNothing(s.sessions, b);
    case WriterTake(i) => OwnersAfterWriterTake(s, i, b);
    case WriterDone(i) => OwnersAfterWriterDone(s, i, b);
    case ReaderGet(i, p) => OwnersAfterReaderGet(s, i, p, b);
    case ReaderPut(i) => OwnersAfterReaderPut(s, i, b);
    case ReaderReturn(i) => OwnersAfterReaderReturn(s, i, b);
    case LocalGet(_) =>
    case LocalFail =>
    case LocalLoad =>
    case RelayDone =>
    case SessionEnd(_) =>
    case PoolForget(_) =>
  }

  lemma NewSessionOwnsNothing(xs: seq<Session>, b: nat)
    ensures InSessions(xs + [Session([], None, None, [])], b) == InSessions(xs, b)
  {
    assert (xs + [Session([], None, None, [])])[..|xs|] == xs;
  }

  lemma TryKeepsNext(s: State)
    requires s.local.Some? && s.attempt.Some?
    ensures TryQueue(s).next == s.next
  {
  }

  lemma OwnersAfterTry(s: State, b: nat)
    requires s.local.Some? && s.attempt.Some?
    ensures Owners(TryQueue(s), b) == Owners(s, b)
  {
    hide InSessions, InChannel, InSession, Try;
    if |s.attempt.value.found| < |s.attempt.value.workers| && NextSlot(s) < |s.sessions| {
      OwnersAfterEnqueue(s, NextSlot(s), b);
    }
  }

  lemma OwnersAfterEnqueue(s: State, slot: nat, b: nat)
    requires s.local.Some? && slot < |s.sessions|
    ensures Owners(Enqueue(s, slot), b) == Owners(s, b)
  {
    var x := s.sessions[slot];
    var p := Packet(|s.fates|, s.local.value);
    QueueAppend(x.queue, p, b);
    UpdateSession(s.sessions, slot, x.(queue := x.queue + [p]), b);
  }

  lemma OwnersAfterWriterTake(s: State, i: nat, b: nat)
    requires Enabled(s, WriterTake(i))
    ensures Owners(Apply(s, WriterTake(i)), b) == Owners(s, b)
  {
    UpdateSession(s.sessions, i, Apply(s, WriterTake(i)).sessions[i], b);
    QueueTake(s.sessions[i].queue, b);
  }

  lemma OwnersAfterWriterDone(s: State, i: nat, b: nat)
    requires Enabled(s, WriterDone(i))
    ensures Owners(Apply(s, WriterDone(i)), b) == Owners(s, b)
  {
    UpdateSession(s.sessions, i, Apply(s, WriterDone(i)).sessions[i], b);
  }

  lemma OwnersAfterReaderGet(s: State, i: nat, p: Option<nat>, b: nat)
    requires Enabled(s, ReaderGet(i, p))
    ensures Owners(Apply(s, ReaderGet(i, p)), b) == Owners(s, b) + (if p == None && b == s.next then 1 else 0)
  {
    UpdateSession(s.sessions, i, Apply(s, ReaderGet(i, p)).sessions[i], b);
  }

  lemma OwnersAfterReaderPut(s: State, i: nat, b: nat)
    requires Enabled(s, ReaderPut(i))
    ensures Owners(Apply(s, ReaderPut(i)), b) == Owners(s, b)
  {
    UpdateSession(s.sessions, i, Apply(s, ReaderPut(i)).sessions[i], b);
  }

  lemma OwnersAfterReaderReturn(s: State, i: nat, b: nat)
    requires Enabled(s, ReaderReturn(i))
    ensures Owners(Apply(s, ReaderReturn(i)), b) == Owners(s, b)
  {
    UpdateSession(s.sessions, i, Apply(s, ReaderReturn(i)).sessions[i], b);
    ChannelAppend(s.returnCh, s.sessions[i].reading.value, b);
  }

  // ---------------------------------------------------------------- where every packet went

  function Serials(q: seq<Packet>): (r: seq<nat>)
    ensures |r| == |q|
    ensures forall i :: 0 <= i < |q| ==> r[i] == q[i].serial
  {
    seq(|q|, i requires 0 <= i < |q| => q[i].serial)
  }

  /** The packets that reached a slot's queue, oldest first: taken by its writer or still waiting. */
  function Received(x: Session): seq<nat> {
    x.taken + Serials(x.queue)
  }

  /** The serials, in reading order, of the packets whose fate is the given slot. */
  function SentTo(fates: seq<Fate>, slot: nat): seq<nat> {
    if fates == [] then []
    else
      var n := |fates| - 1;
      SentTo(fates[..n], slot) + (if fates[n] == To(slot) then [n] else [])
  }

  lemma NothingSent(slot: nat)
    ensures SentTo([], slot) == []
  {
  }

  lemma SentToStep(fates: seq<Fate>, slot: nat)
    requires fates != []
    ensures var n := |fates| - 1; SentTo(fates, slot) == SentTo(fates[..n], slot) + (if fates[n] == To(slot) then [n] else [])
  {
  }

  lemma {:induction false} SentToMeaning(fates: seq<Fate>, slot: nat)
    ensures forall n: nat :: n in SentTo(fates, slot) <==> n < |fates| && fates[n] == To(slot)
    ensures forall i, j :: 0 <= i < j < |SentTo(fates, slot)| ==> SentTo(fates, slot)[i] < SentTo(fates, slot)[j]
  {
    hide SentTo;
    NothingSent(slot);
    if fates != [] {
      var n := |fates| - 1;
      var first := fates[..n];
      SentToMeaning(first, slot);
      var before := SentTo(first, slot);
      assert forall i :: 0 <= i < |before| ==> before[i] in before && before[i] < n;
      assert forall k :: 0 <= k < n ==> first[k] == fates[k];
      SentToStep(fates, slot);
      var after := SentTo(fates, slot);
      assert after == before + (if fates[n] == To(slot) then [n] else []);
      forall k: nat ensures k in after <==> k < |fates| && fates[k] == To(slot) {
        assert k in after <==> k in before || (k == n && fates[n] == To(slot));
        assert k < n ==> (k in before <==> fates[k] == To(slot));
      }
      forall i, j | 0 <= i < j < |after| ensures after[i] < after[j] {
        assert after[i] == before[i];
      }
    }
  }

  predicate Known(s: State, ws: seq<nat>) {
    forall i :: 0 <= i < |ws| ==> ws[i] < |s.sessions|
  }

  /** The registered slots and those of a loaded list are sessions; the queues tested so far for the
      packet at hand were full, and there is a packet at hand while there is an attempt. */
  ghost predicate Linked(s: State) {
    && Known(s, s.registered)
    && (s.attempt.Some? ==>
          && s.local.Some? && Known(s, s.attempt.value.workers)
          && |s.attempt.value.found| < Max(1, |s.attempt.value.workers|)
          && forall i :: 0 <= i < |s.attempt.value.found| ==> s.attempt.value.found[i] >= SEND_BUF)
  }

  function Max(a: nat, b: nat): nat {
    if a < b then b else a
  }

  ghost predicate Inv(s: State) {
    && Linked(s)
    && s.sched.count < CHUNK
    && (forall b: nat :: Owners(s, b) <= if b < s.next then 1 else 0)
    && (forall i :: 0 <= i < |s.sessions| ==> Received(s.sessions[i]) == SentTo(s.fates, i))
    && (forall n :: 0 <= n < |s.fates| && s.fates[n].To? ==> s.fates[n].slot < |s.sessions|)
  }

  lemma ReceivedAfter(s: State, e: Event)
    requires Inv(s) && Enabled(s, e)
    ensures var t := Apply(s, e);
            forall i :: 0 <= i < |t.sessions| ==> Received(t.sessions[i]) == SentTo(t.fates, i)
    ensures var t := Apply(s, e);
            forall n :: 0 <= n < |t.fates| && t.fates[n].To? ==> t.fates[n].slot < |t.sessions|
  {
    hide Owners, Linked, TryQueue, SentTo, Received;
    if e.LocalTry? {
      ReceivedAfterTry(s);
    } else {
      var t := Apply(s, e);
      FatesStay(s, e);
      forall i | 0 <= i < |t.sessions| ensures Received(t.sessions[i]) == SentTo(t.fates, i) {
        if i == |s.sessions| {
          NothingSentYet(s.fates, i);
          NothingReceivedYet();
        } else {
          ReceivedStays(s, e, i);
        }
      }
    }
  }

  lemma NothingReceivedYet()
    ensures Received(Session([], None, None, [])) == []
  {
  }

  lemma FatesStay(s: State, e: Event)
    requires Enabled(s, e) && !e.LocalTry?
    ensures Apply(s, e).fates == s.fates
    ensures |s.sessions| <= |Apply(s, e).sessions| <= |s.sessions| + 1
    ensures |Apply(s, e).sessions| > |s.sessions| ==> Apply(s, e).sessions[|s.sessions|] == Session([], None, None, [])
  {
  }

  lemma ReceivedStays(s: State, e: Event, i: nat)
    requires Enabled(s, e) && !e.LocalTry? && i < |s.sessions| && i < |Apply(s, e).sessions|
    ensures Received(Apply(s, e).sessions[i]) == Received(s.sessions[i])
  {
    hide Received;
    if e == WriterTake(i) {
      ReceivedByTaking(s.sessions[i]);
    } else {
      assert Apply(s, e).sessions[i].queue == s.sessions[i].queue && Apply(s, e).sessions[i].taken == s.sessions[i].taken;
      SameReceived(s.sessions[i], Apply(s, e).sessions[i]);
    }
  }

  lemma SameReceived(x: Session, y: Session)
    requires x.queue == y.queue && x.taken == y.taken
    ensures Received(x) == Received(y)
  {
  }

  /** A packet that the writer takes stays received. */
  lemma ReceivedByTaking(x: Session)
    requires x.queue != []
    ensures var p := x.queue[0];
            Received(x.(writing := Some(p), queue := x.queue[1..], taken := x.taken + [p.serial])) == Received(x)
  {
    assert Serials(x.queue) == [x.queue[0].serial] + Serials(x.queue[1..]);
  }

  lemma {:induction false} NothingSentYet(fates: seq<Fate>, i: nat)
    requires forall n :: 0 <= n < |fates| ==> fates[n] != To(i)
    ensures SentTo(fates, i) == []
  {
    if fates != [] {
      NothingSentYet(fates[..|fates| - 1], i);
    }
  }

  lemma ReceivedAfterTry(s: State)
    requires Inv(s) && s.local.Some? && s.attempt.Some?
    ensures var t := TryQueue(s);
            forall i :: 0 <= i < |t.sessions| ==> Received(t.sessions[i]) == SentTo(t.fates, i)
    ensures var t := TryQueue(s);
            forall n :: 0 <= n < |t.fates| && t.fates[n].To? ==> t.fates[n].slot < |t.sessions|
  {
    hide Owners, Try, NextSlot, SentTo;
    var t := TryQueue(s);
    if |t.fates| > |s.fates| {
      assert t.fates[..|s.fates|] == s.fates;
      forall i | 0 <= i < |t.sessions| ensures Received(t.sessions[i]) == SentTo(t.fates, i) {
        SentToStep(t.fates, i);
        if t.fates[|s.fates|] == To(i) {
          var p := Packet(|s.fates|, s.local.value);
          assert Serials(s.sessions[i].queue + [p]) == Serials(s.sessions[i].queue) + [p.serial];
        }
      }
    }
  }

  lemma LinkedAfterTry(s: State)
    requires Linked(s) && s.sched.count < CHUNK && Enabled(s, LocalTry)
    ensures Linked(TryQueue(s)) && TryQueue(s).sched.count < CHUNK
  {
  }

  lemma KnownStays(s: State, t: State, ws: seq<nat>, part: seq<nat>)
    requires Known(s, ws) && |s.sessions| <= |t.sessions| && forall i :: 0 <= i < |part| ==> part[i] in ws
    ensures Known(t, part)
  {
  }

  lemma NewSessionIsKnown(s: State, t: State, ws: seq<nat>)
    requires Known(s, ws) && |t.sessions| == |s.sessions| + 1
    ensures Known(t, ws + [|s.sessions|])
  {
  }

  lemma LinkedAfter(s: State, e: Event)
    requires Linked(s) && s.sched.count < CHUNK && Enabled(s, e)
    ensures Linked(Apply(s, e)) && Apply(s, e).sched.count < CHUNK
  {
    hide TryQueue, Known;
    if e.LocalTry? {
      LinkedAfterTry(s);
    } else {
      var t := Apply(s, e);
      FatesStay(s, e);
      if s.attempt.Some? { KnownStays(s, t, s.attempt.value.workers, s.attempt.value.workers); }
      if e.SessionStart? {
        NewSessionIsKnown(s, t, s.registered);
      } else {
        KnownStays(s, t, s.registered, t.registered);
      }
    }
  }

  /** A finite run: every event is enabled where it happens. */
  predicate Runs(s: State, events: seq<Event>)
    decreases |events|
  {
    events == [] || (Enabled(s, events[0]) && Runs(Apply(s, events[0]), events[1..]))
  }

  function Final(s: State, events: seq<Event>): State
    requires Runs(s, events)
    decreases |events|
  {
    if events == [] then s else Final(Apply(s, events[0]), events[1..])
  }

  lemma FinalStep(s: State, events: seq<Event>)
    requires Runs(s, events) && events != []
    ensures Final(s, events) == Final(Apply(s, events[0]), events[1..])
  {
  }

  lemma StepKeepsInv(s: State, e: Event)
    requires Inv(s) && Enabled(s, e)
    ensures Inv(Apply(s, e))
  {
    hide Apply, Owners, Received, SentTo;
    forall b: nat ensures Owners(Apply(s, e), b) <= if b < Apply(s, e).next then 1 else 0 {
      OwnersAfter(s, e, b);
    }
    ReceivedAfter(s, e);
    LinkedAfter(s, e);
  }

  lemma {:induction false} RunKeepsInv(s: State, events: seq<Event>)
    requires Inv(s) && Runs(s, events)
    ensures Inv(Final(s, events))
    decreases |events|
  {
    if events != [] {
      hide Apply, Inv, Final;
      var e := events[0];
      StepKeepsInv(s, e);
      RunKeepsInv(Apply(s, e), events[1..]);
      FinalStep(s, events);
    }
  }

  lemma InitInv()
    ensures Inv(INIT)
  {
  }

  /** In every run of the whole dispatcher, each packet that was read went to exactly one session's
      queue, in reading order, or to none; and no buffer is in two places. */
  lemma EveryRunConserves(events: seq<Event>)
    requires Runs(INIT, events)
    ensures var s := Final(INIT, events);
            && (forall n: nat, i: nat :: n < |s.fates| && i < |s.sessions| ==>
                 (n in Received(s.sessions[i]) <==> s.fates[n] == To(i)))
            && (forall i: nat, j, k :: i < |s.sessions| && 0 <= j < k < |Received(s.sessions[i])| ==>
                 Received(s.sessions[i])[j] < Received(s.sessions[i])[k] < |s.fates|)
            && (forall n: nat :: n < |s.fates| && s.fates[n].To? ==> s.fates[n].slot < |s.sessions|)
            && (forall b: nat :: Owners(s, b) <= 1)
            && s.sched.count < CHUNK
  {
    var s := Final(INIT, events);
    InitInv();
    RunKeepsInv(INIT, events);
    forall i: nat | i < |s.sessions|
      ensures forall n: nat :: n in Received(s.sessions[i]) <==> n < |s.fates| && s.fates[n] == To(i)
      ensures forall j, k :: 0 <= j < k < |Received(s.sessions[i])| ==>
                Received(s.sessions[i])[j] < Received(s.sessions[i])[k] < |s.fates|
    {
      SentToMeaning(s.fates, i);
      assert forall k :: 0 <= k < |Received(s.sessions[i])| ==> Received(s.sessions[i])[k] in SentTo(s.fates, i);
    }
  }

  ghost predicate WithinCapacity(s: State) {
    |s.returnCh| <= 512 && forall i :: 0 <= i < |s.sessions| ==> |s.sessions[i].queue| <= 128
  }

  lemma StepWithinCapacity(s: State, e: Event)
    requires WithinCapacity(s) && Enabled(s, e)
    ensures WithinCapacity(Apply(s, e))
  {
    hide Without;
  }

  /** No queue ever holds more than its capacity. */
  lemma {:induction false} RunWithinCapacity(s: State, events: seq<Event>)
    requires WithinCapacity(s) && Runs(s, events)
    ensures WithinCapacity(Final(s, events))
    decreases |events|
  {
    if events != [] {
      hide Apply, WithinCapacity;
      StepWithinCapacity(s, events[0]);
      RunWithinCapacity(Apply(s, events[0]), events[1..]);
      FinalStep(s, events);
    }
  }

  /** A packet is lost exactly when each queue of the list loaded for it was full at its own test,
      and then its buffer goes back to the pool; it is sent to the first of them that was not. */
  lemma LostExactlyWhenFull(s: State)
    requires Inv(s) && Enabled(s, LocalTry)
    ensures var a, t := s.attempt.value, Apply(s, LocalTry);
            && (forall i :: 0 <= i < |a.found| ==> a.found[i] >= SEND_BUF)
            && (t.fates == s.fates + [Lost] <==>
                 || a.workers == []
                 || (|a.found| + 1 == |a.workers| && Waiting(s, NextSlot(s)) >= SEND_BUF))
            && (t.fates == s.fates + [Lost] ==> t.pool == s.pool + multiset{s.local.value} && t.sessions == s.sessions)
            && (a.workers != [] && Waiting(s, NextSlot(s)) < SEND_BUF ==> t.fates == s.fates + [To(NextSlot(s))])
            && (t.attempt.Some? ==> t == s.(attempt := Some(a.(found := a.found + [Waiting(s, NextSlot(s))]))))
  {
    hide Owners, Received, SentTo;
    var t := Apply(s, LocalTry);
    if t.fates != s.fates {
      assert t.fates[|s.fates|] == (s.fates + [t.fates[|s.fates|]])[|s.fates|];
    }
  }

  /** The test that ends an attempt does what Route says for the queues as they were found: room has
      the one found to accept the packet, and not the ones found full before it. */
  lemma AttemptIsRoute(s: State, room: seq<bool>)
    requires Inv(s) && Enabled(s, LocalTry) && |room| == |s.attempt.value.workers|
    requires forall i :: 0 <= i < |s.attempt.value.found| ==> !room[Place(|room|, s.sched.index % |room|, i)]
    requires room != [] ==>
               (room[Place(|room|, s.sched.index % |room|, |s.attempt.value.found|)] <==> Waiting(s, NextSlot(s)) < SEND_BUF)
    ensures var t := Apply(s, LocalTry);
            t.attempt == None ==>
              && t.sched == Route(s.sched, room).0
              && t.fates == s.fates + [match Route(s.sched, room).1 case Sent(w) => To(s.attempt.value.workers[w]) case Dropped => Lost]
  {
    hide Owners, Received, SentTo, Route;
    if room == [] {
      NowhereToGo(s.sched);
    } else {
      TriesAreRoute(s.sched, room, |s.attempt.value.found|);
    }
  }

  lemma NowhereToGo(s: Sched)
    ensures Route(s, []) == (s, Dropped)
  {
  }

  /** The tests of a packet, with no other thread between them. */
  function TryAll(s: State): State
    requires s.local.Some? && s.attempt.Some?
    decreases |s.attempt.value.workers| - |s.attempt.value.found|
  {
    var t := TryQueue(s);
    if t.attempt.Some? && t.local.Some? && |t.attempt.value.workers| - |t.attempt.value.found| < |s.attempt.value.workers| - |s.attempt.value.found|
    then TryAll(t) else t
  }

  lemma {:induction false} TryAllIsRoute(s: State, room: seq<bool>)
    requires Inv(s) && Enabled(s, LocalTry) && room == Rooms(s, s.attempt.value.workers)
    requires forall i :: 0 <= i < |s.attempt.value.found| ==> !room[Place(|room|, s.sched.index % |room|, i)]
    ensures var t := TryAll(s);
            && t.attempt == None && t.sched == Route(s.sched, room).0
            && t.fates == s.fates + [match Route(s.sched, room).1 case Sent(w) => To(s.attempt.value.workers[w]) case Dropped => Lost]
    decreases |s.attempt.value.workers| - |s.attempt.value.found|
  {
    hide Owners, Received, SentTo, Route;
    AttemptIsRoute(s, room);
    LostExactlyWhenFull(s);
    var t := TryQueue(s);
    if t.attempt.Some? {
      StepKeepsInv(s, LocalTry);
      assert Rooms(t, t.attempt.value.workers) == room;
      TryAllIsRoute(t, room);
    }
  }
}
