/**
 The dispatcher's scheduler (core/dispatcher.go, readLoop): packets go out in chunks of twelve per
 worker, spill over to the next worker with room when the chosen queue is full, and are dropped
 only when every queue of the snapshot is full.
 */
module RoundRobin {
  import opened Arithmetic
  import opened Wrappers

  const CHUNK := 12

  /** rrIndex and rrCount. */
  datatype Sched = Sched(index: nat, count: nat)

  /** Where one packet goes: the position of a worker in the snapshot, or nowhere. */
  datatype Outcome = Sent(worker: nat) | Dropped

  /** The position k places after idx, around n workers. */
  function Place(n: nat, idx: nat, k: nat): (w: nat)
    requires n > 0
    ensures w < n
  {
    (idx + k) % n
  }

  /** The least k' >= k such that the worker k' places after idx has room, or the number of workers. */
  function Scan(room: seq<bool>, idx: nat, k: nat): (d: nat)
    requires 0 < |room| && k <= |room|
    ensures k <= d <= |room|
    ensures d < |room| ==> room[Place(|room|, idx, d)]
    ensures forall i :: k <= i < d ==> !room[Place(|room|, idx, i)]
    decreases |room| - k
  {
    if k == |room| || room[Place(|room|, idx, k)] then k else Scan(room, idx, k + 1)
  }

  /** One packet: room tells which queues of the snapshot accept it. */
  function Route(s: Sched, room: seq<bool>): (Sched, Outcome) {
    var n := |room|;
    if n == 0 then (s, Dropped)
    else
      var idx := s.index % n;
      if room[idx] then
        (if s.count + 1 >= CHUNK then Sched((idx + 1) % n, 0) else s.(count := s.count + 1), Sent(idx))
      else
        var d := Scan(room, idx, 1);
        if d < n then (Sched(Place(n, idx, d), 1), Sent(Place(n, idx, d)))
        else (Sched((idx + 1) % n, 0), Dropped)
  }

  lemma CyclicPosition(n: nat, idx: nat, w: nat) returns (d: nat)
    requires idx < n && w < n
    ensures d < n && Place(n, idx, d) == w
  {
    d := if w >= idx then w - idx else w + n - idx;
    DivModUnique(idx + d, n, if w >= idx then 0 else 1, w);
  }

  lemma PlaceZero(n: nat, idx: nat)
    requires idx < n
    ensures Place(n, idx, 0) == idx
  {
    DivModUnique(idx, n, 0, idx);
  }

  /** Worker w is the first with room, d places after idx. */
  ghost predicate FirstWithRoom(room: seq<bool>, idx: nat, d: nat, w: nat) {
    && 0 < |room| && d < |room| && Place(|room|, idx, d) == w && room[w]
    && forall i :: 0 <= i < d ==> !room[Place(|room|, idx, i)]
  }

  /** A packet is dropped exactly when no queue of the snapshot has room, and otherwise goes to the
      first worker with room in cyclic order from the current one. */
  lemma RouteFirstWithRoom(s: Sched, room: seq<bool>)
    ensures Route(s, room).1 == Dropped <==> (forall w :: 0 <= w < |room| ==> !room[w])
    ensures Route(s, room).1.Sent? ==>
              exists d :: FirstWithRoom(room, s.index % |room|, d, Route(s, room).1.worker)
    ensures s.count < CHUNK ==> Route(s, room).0.count < CHUNK
  {
    var n := |room|;
    if n > 0 {
      var idx := s.index % n;
      PlaceZero(n, idx);
      if room[idx] {
        assert FirstWithRoom(room, idx, 0, idx);
      } else {
        ScanDecides(room, idx);
        var d := Scan(room, idx, 1);
        if d < n {
          assert FirstWithRoom(room, idx, d, Place(n, idx, d));
        }
      }
    }
  }

  lemma ScanDecides(room: seq<bool>, idx: nat)
    requires idx < |room| && !room[idx]
    ensures Scan(room, idx, 1) == |room| <==> (forall w :: 0 <= w < |room| ==> !room[w])
  {
    PlaceZero(|room|, idx);
    if Scan(room, idx, 1) == |room| {
      forall w | 0 <= w < |room| ensures !room[w] {
        var d := CyclicPosition(|room|, idx, w);
      }
    }
  }

  /** The worker at hand keeps its chunk of twelve; a worker that takes over begins one with this packet;
      after a drop the next worker begins one. */
  lemma NextTurn(s: Sched, room: seq<bool>)
    requires room != []
    ensures var n := |room|;
            match Route(s, room)
            case (t, Dropped) => t == Sched((s.index % n + 1) % n, 0)
            case (t, Sent(w)) =>
              if w == s.index % n then t == (if s.count < 11 then Sched(s.index, s.count + 1) else Sched((w + 1) % n, 0))
              else t == Sched(w, 1)
  {
    var n := |room|;
    var idx := s.index % n;
    PlaceZero(n, idx);
    if !room[idx] && Scan(room, idx, 1) < n {
      assert room[Place(n, idx, Scan(room, idx, 1))];
    }
  }

  // ---------------------------------------------------------------- one queue at a time

  datatype Verdict = Goes(sched: Sched, worker: nat) | Next | Drops(sched: Sched)

  /** What the read loop does once it has tested the queue k places after the current one. */
  function Try(s: Sched, n: nat, k: nat, room: bool): Verdict
    requires k < n
  {
    var idx := s.index % n;
    if room then
      Goes(if k > 0 then Sched(Place(n, idx, k), 1)
           else if s.count + 1 >= CHUNK then Sched((idx + 1) % n, 0)
           else s.(count := s.count + 1),
           Place(n, idx, k))
    else if k + 1 < n then Next
    else Drops(Sched((idx + 1) % n, 0))
  }

  lemma {:induction false} ScanSkips(room: seq<bool>, idx: nat, k: nat, d: nat)
    requires 0 < |room| && k <= d < |room|
    requires forall i :: k <= i < d ==> !room[Place(|room|, idx, i)]
    ensures Scan(room, idx, k) == Scan(room, idx, d)
    decreases d - k
  {
    if k < d {
      ScanSkips(room, idx, k + 1, d);
    }
  }

  /** The tests of one packet, made one at a time, end as Route says for the queues as they were
      found, each at its own test. */
  lemma TriesAreRoute(s: Sched, room: seq<bool>, k: nat)
    requires k < |room| && forall i :: 0 <= i < k ==> !room[Place(|room|, s.index % |room|, i)]
    ensures match Try(s, |room|, k, room[Place(|room|, s.index % |room|, k)])
            case Goes(t, w) => Route(s, room) == (t, Sent(w))
            case Drops(t) => Route(s, room) == (t, Dropped)
            case Next => !room[Place(|room|, s.index % |room|, k)]
  {
    var idx := s.index % |room|;
    PlaceZero(|room|, idx);
    if k > 0 {
      assert !room[Place(|room|, idx, 0)];
      ScanSkips(room, idx, 1, k);
    }
  }

  // ---------------------------------------------------------------- the schedule in closed form

  function AllRoom(n: nat): seq<bool> {
    seq(n, _ => true)
  }

  /** The scheduler after j packets to n workers whose queues never fill up. */
  function After(s: Sched, n: nat, j: nat): Sched {
    if j == 0 then s else Route(After(s, n, j - 1), AllRoom(n)).0
  }

  /** The worker of the j-th next packet (counting from 0). */
  function Target(s: Sched, n: nat, j: nat): Outcome {
    Route(After(s, n, j), AllRoom(n)).1
  }

  lemma ModSucc(x: nat, n: nat)
    requires n > 0
    ensures (x % n + 1) % n == (x + 1) % n
  {
    var q, r := x / n, x % n;
    assert x == n * q + r;
    if r + 1 < n {
      DivModUnique(x + 1, n, q, r + 1);
      DivModUnique(r + 1, n, 0, r + 1);
    } else {
      assert n * (q + 1) == n * q + n;
      DivModUnique(x + 1, n, q + 1, 0);
      DivModUnique(n, n, 1, 0);
    }
  }

  /** One packet when there is room everywhere. */
  lemma RouteAllRoom(t: Sched, n: nat)
    requires n > 0
    ensures Route(t, AllRoom(n)) == (if t.count + 1 >= CHUNK then Sched((t.index % n + 1) % n, 0) else t.(count := t.count + 1),
                                     Sent(t.index % n))
  {
  }

  lemma NextChunk(c: nat)
    ensures (c + 1) / CHUNK == c / CHUNK + (if c % CHUNK == CHUNK - 1 then 1 else 0)
    ensures (c + 1) % CHUNK == if c % CHUNK == CHUNK - 1 then 0 else c % CHUNK + 1
  {
  }

  lemma NextIndex(index: nat, n: nat, x: nat)
    requires n > 0 && index % n == x % n
    ensures ((index % n + 1) % n) % n == (x + 1) % n
  {
    ModSucc(x, n);
    DivModUnique((index % n + 1) % n, n, 0, (index % n + 1) % n);
  }

  lemma {:induction false} AfterClosedForm(s: Sched, n: nat, j: nat)
    requires n > 0 && s.count < CHUNK
    ensures After(s, n, j).count == (s.count + j) % CHUNK
    ensures After(s, n, j).index % n == (s.index + (s.count + j) / CHUNK) % n
  {
    hide Route;
    if j > 0 {
      AfterClosedForm(s, n, j - 1);
      RouteAllRoom(After(s, n, j - 1), n);
      NextChunk(s.count + j - 1);
      NextIndex(After(s, n, j - 1).index, n, s.index + (s.count + j - 1) / CHUNK);
    }
  }

  /** With n workers that always have room, the j-th next packet goes to worker
      (r + (k + j) div 12) mod n, where r and k are the stored index and count. */
  lemma Schedule(s: Sched, n: nat, j: nat)
    requires n > 0 && s.count < CHUNK
    ensures Target(s, n, j) == Sent((s.index + (s.count + j) / CHUNK) % n)
  {
    AfterClosedForm(s, n, j);
    RouteAllRoom(After(s, n, j), n);
  }

  /** How many of the packets from, ..., from + len - 1 go to worker w. */
  function Share(s: Sched, n: nat, from: nat, len: nat, w: nat): nat {
    if len == 0 then 0
    else Share(s, n, from, len - 1, w) + (if Target(s, n, from + len - 1) == Sent(w) then 1 else 0)
  }

  /** The same count over the closed form, as a function of the absolute position x = count + j. */
  function Hits(r: nat, n: nat, x: nat, len: nat, w: nat): nat
    requires n > 0
  {
    if len == 0 then 0
    else Hits(r, n, x, len - 1, w) + (if (r + (x + len - 1) / CHUNK) % n == w then 1 else 0)
  }

  lemma {:induction false} ShareIsHits(s: Sched, n: nat, from: nat, len: nat, w: nat)
    requires n > 0 && s.count < CHUNK
    ensures Share(s, n, from, len, w) == Hits(s.index, n, s.count + from, len, w)
  {
    if len > 0 {
      ShareIsHits(s, n, from, len - 1, w);
      Schedule(s, n, from + len - 1);
    }
  }

  lemma {:induction false} HitsFromFront(r: nat, n: nat, x: nat, len: nat, w: nat)
    requires n > 0 && len > 0
    ensures Hits(r, n, x, len, w) == (if (r + x / CHUNK) % n == w then 1 else 0) + Hits(r, n, x + 1, len - 1, w)
  {
    if len > 1 {
      HitsFromFront(r, n, x, len - 1, w);
    }
  }

  /** Twelve packets in one chunk, or a whole chunk less: chunks are constant. */
  lemma ChunkHits(r: nat, n: nat, q: nat, w: nat)
    requires n > 0
    ensures Hits(r, n, CHUNK * q, CHUNK, w) == if (r + q) % n == w then CHUNK else 0
  {
    ChunkPart(r, n, q, CHUNK, w);
  }

  lemma {:induction false} ChunkPart(r: nat, n: nat, q: nat, len: nat, w: nat)
    requires n > 0 && len <= CHUNK
    ensures Hits(r, n, CHUNK * q, len, w) == if (r + q) % n == w then len else 0
  {
    if len > 0 {
      ChunkPart(r, n, q, len - 1, w);
      assert (CHUNK * q + len - 1) / CHUNK == q;
    }
  }

  lemma {:induction false} HitsAppend(r: nat, n: nat, x: nat, len1: nat, len2: nat, w: nat)
    requires n > 0
    ensures Hits(r, n, x, len1 + len2, w) == Hits(r, n, x, len1, w) + Hits(r, n, x + len1, len2, w)
  {
    if len2 > 0 {
      HitsAppend(r, n, x, len1, len2 - 1, w);
    }
  }

  /** Sliding a window of 12n packets by one does not change a worker's share: the packet that
      leaves and the one that enters go to the same worker. */
  lemma {:induction false} WindowSlides(r: nat, n: nat, x: nat, w: nat)
    requires n > 0
    ensures Hits(r, n, x, CHUNK * n, w) == Hits(r, n, 0, CHUNK * n, w)
  {
    if x > 0 {
      WindowSlides(r, n, x - 1, w);
      var y := x - 1;
      HitsFromFront(r, n, y, CHUNK * n + 1, w);
      assert (y + CHUNK * n) / CHUNK == y / CHUNK + n;
      ModPeriod(r + y / CHUNK, n);
    }
  }

  lemma ModPeriod(x: nat, n: nat)
    requires n > 0
    ensures (x + n) % n == x % n
  {
    assert n * (x / n + 1) == n * (x / n) + n;
    DivModUnique(x + n, n, x / n + 1, x % n);
  }

  /** From position 0, the first m <= n chunks go to m different workers. */
  lemma {:induction false} FirstChunks(r: nat, n: nat, m: nat, w: nat)
    requires 0 < n && m <= n && w < n
    ensures Hits(r, n, 0, CHUNK * m, w) == if exists q :: 0 <= q < m && Place(n, r, q) == w then CHUNK else 0
  {
    if m > 0 {
      FirstChunks(r, n, m - 1, w);
      assert CHUNK * m == CHUNK * (m - 1) + CHUNK;
      HitsAppend(r, n, 0, CHUNK * (m - 1), CHUNK, w);
      ChunkHits(r, n, m - 1, w);
      forall q | 0 <= q < m - 1 ensures Place(n, r, q) != Place(n, r, m - 1) {
        DistinctResidues(r + q, n, m - 1 - q);
      }
      assert Place(n, r, m - 1) == w <==> (r + (m - 1)) % n == w;
    }
  }

  lemma DistinctResidues(x: nat, n: nat, d: nat)
    requires 0 < d < n
    ensures x % n != (x + d) % n
  {
    var q := (x + d) / n - x / n;
    assert n * q == n * ((x + d) / n) - n * (x / n) == d + x % n - (x + d) % n;
    MultipleOfN(n, q);
  }

  /** Fairness: any 12n consecutive packets, starting anywhere, give each of the n workers exactly
      twelve. */
  lemma EveryWindowIsFair(s: Sched, n: nat, from: nat, w: nat)
    requires w < n && s.count < CHUNK
    ensures Share(s, n, from, CHUNK * n, w) == CHUNK
  {
    ShareIsHits(s, n, from, CHUNK * n, w);
    WindowSlides(s.index, n, s.count + from, w);
    FirstChunks(s.index, n, n, w);
    var q := CyclicPosition(n, s.index % n, w);
    ModAdd(s.index, n, q);
    assert Place(n, s.index, q) == w;
  }

  lemma {:induction false} ModAdd(x: nat, n: nat, d: nat)
    requires n > 0
    ensures (x % n + d) % n == (x + d) % n
  {
    if d > 0 {
      ModAdd(x, n, d - 1);
      ModSucc(x % n + d - 1, n);
      ModSucc(x + d - 1, n);
    } else {
      DivModUnique(x % n, n, 0, x % n);
    }
  }
}
