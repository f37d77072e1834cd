/**
 Wraps of one obfuscation state by any number of threads (core/obfs.go, obfsWrapPacket).

 A wrap takes its counter under the state's mutex and builds its packet after it has let go, so
 packets may come out in another order than their counters were taken in.
 */
module NonceRuns {
  import opened Obfs
  import opened Wrappers

  /** What stays the same for all packets of a stream. */
  datatype Stream = Stream(a: Aead, key: Bytes, cfg: ObfsConfig, initSeq: U16, initTs: U32)

  /** A wrap between its two steps; order counts the wraps of the run that took a counter before it. */
  datatype Wrap = Wrap(order: nat, counter: U64)

  datatype Sent = Sent(order: nat, wire: Bytes)

  datatype State = State(count: U64, taken: nat, building: map<nat, Wrap>, sent: seq<Sent>)

  /** rnd and noise are the random bytes drawn for the padding. */
  datatype Event = Take(t: nat) | Build(t: nat, payload: Bytes, rnd: Byte, noise: nat -> Byte)

  function Start(count: U64): State {
    State(count, 0, map[], [])
  }

  predicate Enabled(s: State, e: Event) {
    if e.Take? then e.t !in s.building else e.t in s.building
  }

  function Apply(st: Stream, s: State, e: Event): State
    requires Enabled(s, e)
  {
    match e
    case Take(t) =>
      s.(count := CounterAfter(s.count, 1), taken := s.taken + 1, building := s.building[t := Wrap(s.taken, s.count)])
    case Build(t, payload, rnd, noise) =>
      var w := s.building[t];
      var wire := Packet(st.a, st.key, payload, st.cfg, SeqAt(st.initSeq, w.counter), TsAt(st.initTs, w.counter), rnd, noise);
      s.(building := s.building - {t}, sent := s.sent + [Sent(w.order, wire)])
  }

  predicate Runs(st: Stream, s: State, events: seq<Event>)
    decreases |events|
  {
    events == [] || (Enabled(s, events[0]) && Runs(st, Apply(st, s, events[0]), events[1..]))
  }

  function Final(st: Stream, s: State, events: seq<Event>): State
    requires Runs(st, s, events)
    decreases |events|
  {
    if events == [] then s else Final(st, Apply(st, s, events[0]), events[1..])
  }

  ghost predicate SentOk(st: Stream, start: U64, x: Sent) {
    |x.wire| >= 12 && NonceOf(x.wire) == NonceAt(st.cfg.ssrc, st.initSeq, st.initTs, CounterAfter(start, x.order))
  }

  ghost predicate BuildingOk(start: U64, s: State, t: nat)
    requires t in s.building
  {
    && s.building[t].order < s.taken && s.building[t].counter == CounterAfter(start, s.building[t].order)
    && (forall u :: u in s.building && u != t ==> s.building[u].order != s.building[t].order)
    && (forall i :: 0 <= i < |s.sent| ==> s.sent[i].order != s.building[t].order)
  }

  ghost predicate Inv(st: Stream, start: U64, s: State) {
    && s.count == CounterAfter(start, s.taken)
    && (forall t :: t in s.building ==> BuildingOk(start, s, t))
    && (forall i :: 0 <= i < |s.sent| ==> s.sent[i].order < s.taken && SentOk(st, start, s.sent[i]))
    && (forall i, j :: 0 <= i < j < |s.sent| ==> s.sent[i].order != s.sent[j].order)
  }

  lemma CounterStep(start: U64, i: nat)
    ensures CounterAfter(CounterAfter(start, i), 1) == CounterAfter(start, i + 1)
  {
  }

  /** The nonce that a peer reads off a packet is the one it was sealed under. */
  lemma NonceOnTheWire(st: Stream, payload: Bytes, s: U16, ts: U32, rnd: Byte, noise: nat -> Byte)
    ensures var wire := Packet(st.a, st.key, payload, st.cfg, s, ts, rnd, noise);
            |wire| >= 12 && NonceOf(wire) == Nonce(st.cfg.ssrc, s, ts)
  {
    var wire := Packet(st.a, st.key, payload, st.cfg, s, ts, rnd, noise);
    var h := Header(st.cfg, s, ts);
    assert wire[2..4] == h[2..4] && wire[4..8] == h[4..8] && wire[8..12] == h[8..12];
    HeaderFields(st.cfg, s, ts);
  }

  lemma StepKeepsInv(st: Stream, start: U64, s: State, e: Event)
    requires Inv(st, start, s) && Enabled(s, e)
    ensures Inv(st, start, Apply(st, s, e))
  {
    hide CounterAfter, Packet, NonceOf, NonceAt, SeqAt, TsAt;
    var u := Apply(st, s, e);
    CounterStep(start, s.taken);
    assert forall t :: t in s.building ==> BuildingOk(start, s, t);
    if e.Build? {
      var w := s.building[e.t];
      BuiltOk(st, start, w.order, e.payload, e.rnd, e.noise);
    }
    forall t | t in u.building ensures BuildingOk(start, u, t) {
      assert t in s.building ==> BuildingOk(start, s, t);
    }
  }

  lemma BuiltOk(st: Stream, start: U64, order: nat, payload: Bytes, rnd: Byte, noise: nat -> Byte)
    ensures var c := CounterAfter(start, order);
            SentOk(st, start, Sent(order, Packet(st.a, st.key, payload, st.cfg, SeqAt(st.initSeq, c), TsAt(st.initTs, c), rnd, noise)))
  {
    var c := CounterAfter(start, order);
    NonceOnTheWire(st, payload, SeqAt(st.initSeq, c), TsAt(st.initTs, c), rnd, noise);
  }

  lemma {:induction false} RunKeepsInv(st: Stream, start: U64, s: State, events: seq<Event>)
    requires Inv(st, start, s) && Runs(st, s, events)
    ensures Inv(st, start, Final(st, s, events))
    decreases |events|
  {
    hide Inv, Apply;
    if events != [] {
      StepKeepsInv(st, start, s, events[0]);
      RunKeepsInv(st, start, Apply(st, s, events[0]), events[1..]);
    }
  }

  lemma Mod48(x: int, y: int)
    ensures x % TWO_48 == y % TWO_48 <==> (x - y) % TWO_48 == 0
  {
    var q := x / TWO_48 - y / TWO_48;
    assert x - y == q * TWO_48 + (x % TWO_48 - y % TWO_48);
  }

  /** However the wraps of a state interleave, and wherever its counter started, two of its packets
      carry the same nonce exactly when a positive multiple of 2^48 wraps lies between them. */
  lemma RepeatsExactlyIn(st: Stream, start: U64, events: seq<Event>, i: nat, j: nat)
    requires Runs(st, Start(start), events)
    requires i < j < |Final(st, Start(start), events).sent|
    ensures var sent := Final(st, Start(start), events).sent;
            && |sent[i].wire| >= 12 && |sent[j].wire| >= 12
            && sent[i].order != sent[j].order
            && (NonceOf(sent[i].wire) == NonceOf(sent[j].wire) <==> (sent[i].order - sent[j].order) % TWO_48 == 0)
  {
    hide Packet, SeqAt, TsAt, Nonce;
    RunKeepsInv(st, start, Start(start), events);
    var sent := Final(st, Start(start), events).sent;
    var x, y := sent[i], sent[j];
    assert SentOk(st, start, x) && SentOk(st, start, y);
    NonceRepeatsExactly(st.cfg.ssrc, st.initSeq, st.initTs, CounterAfter(start, x.order), CounterAfter(start, y.order));
    CounterMod48(start, x.order);
    CounterMod48(start, y.order);
    Mod48(start + x.order, start + y.order);
  }

  lemma Below48(x: nat, y: nat)
    requires x < TWO_48 && y < TWO_48 && x != y
    ensures (x - y) % TWO_48 != 0
  {
    Mod48(x, y);
  }

  lemma OrdersBelow(st: Stream, start: U64, events: seq<Event>)
    requires Runs(st, Start(start), events)
    ensures var s := Final(st, Start(start), events); forall i :: 0 <= i < |s.sent| ==> s.sent[i].order < s.taken
  {
    RunKeepsInv(st, start, Start(start), events);
  }

  ghost predicate DifferentNonces(x: Sent, y: Sent) {
    |x.wire| >= 12 && |y.wire| >= 12 && NonceOf(x.wire) != NonceOf(y.wire)
  }

  lemma PairDiffers(st: Stream, start: U64, events: seq<Event>, i: nat, j: nat)
    requires Runs(st, Start(start), events) && Final(st, Start(start), events).taken <= TWO_48
    requires i < j < |Final(st, Start(start), events).sent|
    ensures DifferentNonces(Final(st, Start(start), events).sent[i], Final(st, Start(start), events).sent[j])
  {
    hide Apply, Packet;
    OrdersBelow(st, start, events);
    RepeatsExactlyIn(st, start, events, i, j);
    var sent := Final(st, Start(start), events).sent;
    Below48(sent[i].order, sent[j].order);
  }

  /** A run of up to 2^48 wraps never repeats a nonce. */
  lemma NoRepeatIn2To48Wraps(st: Stream, start: U64, events: seq<Event>)
    requires Runs(st, Start(start), events) && Final(st, Start(start), events).taken <= TWO_48
    ensures var sent := Final(st, Start(start), events).sent;
            forall i, j :: 0 <= i < j < |sent| ==> DifferentNonces(sent[i], sent[j])
  {
    hide DifferentNonces, Apply;
    forall i, j | 0 <= i < j < |Final(st, Start(start), events).sent|
      ensures DifferentNonces(Final(st, Start(start), events).sent[i], Final(st, Start(start), events).sent[j])
    {
      PairDiffers(st, start, events, i, j);
    }
  }

  lemma {:induction false} WrapsCounted(st: Stream, s: State, events: seq<Event>)
    requires Runs(st, s, events) && |s.sent| + |s.building| == s.taken
    ensures var u := Final(st, s, events); |u.sent| + |u.building| == u.taken
    decreases |events|
  {
    if events != [] {
      hide Packet, CounterAfter;
      WrapsCounted(st, Apply(st, s, events[0]), events[1..]);
    }
  }

  /** Every wrap that took a counter is still being built or has come out as one packet; a packet that comes
      out is read back as the payload it was built from, unless its padding count overflows. */
  lemma WrapsComeOut(st: Stream, start: U64, events: seq<Event>, t: nat, payload: Bytes, rnd: Byte, noise: nat -> Byte, room: nat)
    requires Runs(st, Start(start), events) && Enabled(Final(st, Start(start), events), Build(t, payload, rnd, noise))
    requires Sound(st.a) && |st.key| == KEY_LEN && payload != [] && |payload| <= room
    ensures var s := Final(st, Start(start), events);
            var u := Apply(st, s, Build(t, payload, rnd, noise));
            && |s.sent| + |s.building| == s.taken && u.taken == s.taken
            && |u.sent| == |s.sent| + 1 && u.sent[..|s.sent|] == s.sent && u.building == s.building - {t}
            && (Unwrap(st.a, st.key, u.sent[|s.sent|].wire, room) == Success(payload) <==> !PaddingOverflows(st.cfg, rnd))
  {
    hide CounterAfter, SeqAt, TsAt, Packet, Unwrap;
    WrapsCounted(st, Start(start), events);
    var c := Final(st, Start(start), events).building[t].counter;
    UnwrapInvertsWrap(st.a, st.key, payload, st.cfg, SeqAt(st.initSeq, c), TsAt(st.initTs, c), rnd, noise, room);
  }
}
