/**
 The retry loop of one worker (core/worker_group.go) and the list of banned relay addresses
 (core/blacklist.go).  Times are milliseconds on a clock that never goes back.
 */
module WorkerRetry {
  import opened Arithmetic
  import opened Wrappers

  const MAX_ATTEMPTS := 3

  // ---------------------------------------------------------------- the blacklist

  /** address -> last moment of its ban */
  type Bans = map<string, int>

  predicate Banned(bans: Bans, addr: string, now: int) {
    addr in bans && now <= bans[addr]
  }

  /** An entry that has expired is forgotten when it is asked for. */
  function Forgotten(bans: Bans, addr: string, now: int): Bans {
    if addr in bans && now > bans[addr] then bans - {addr} else bans
  }

  class Blacklist {
    var bans: Bans
    const ttl: nat

    constructor (ttl: nat)
      ensures this.ttl == ttl && bans == map[]
    {
      this.ttl, bans := ttl, map[];
    }

    /** Forgetting an expired entry changes no answer from now on. */
    method IsBanned(addr: string, now: int) returns (banned: bool)
      modifies this`bans
      ensures banned == Banned(old(bans), addr, now)
      ensures bans == Forgotten(old(bans), addr, now)
      ensures bans == if addr in old(bans) && !banned then old(bans) - {addr} else old(bans)
      ensures forall a, t :: t >= now ==> Banned(bans, a, t) == Banned(old(bans), a, t)
    {
      if addr !in bans {
        return false;
      }
      if now > bans[addr] {
        bans := bans - {addr};
        return false;
      }
      return true;
    }

    method Ban(addr: string, now: int)
      modifies this`bans
      ensures bans == old(bans)[addr := now + ttl]
      ensures forall a, t :: Banned(bans, a, t) == if a == addr then t <= now + ttl else Banned(old(bans), a, t)
    {
      bans := bans[addr := now + ttl];
    }
  }

  // ---------------------------------------------------------------- the worker's state

  datatype SessionResult = Ok | AddressDead | WrapTimeout | Fatal | Unknown

  /** currentTurnAddr, addressAttempts and workerObfsMode. */
  datatype Worker = Worker(addr: string, attempts: nat, mode: string)

  /** One session: its address and mode, when the blacklist checks before it were over, how it
      ended and when. */
  datatype Round = Round(addr: string, mode: string, at: int, result: SessionResult, ended: int)

  function NextMode(mode: string): string {
    if mode == "audio" then "video" else "audio"
  }

  /** k changes of mode. */
  function Toggled(base: string, k: nat): string {
    if k == 0 then base else NextMode(Toggled(base, k - 1))
  }

  lemma ModeAlternates(base: string, k: nat)
    ensures Toggled(base, k + 1) != Toggled(base, k)
    ensures base == "audio" || base == "video" || k > 0 ==> Toggled(base, k + 2) == Toggled(base, k)
  {
  }

  /** Workers are numbered from 1; the addresses go round. */
  function SelectAddress(available: seq<string>, workerID: int): (addr: string)
    requires available != []
    ensures addr in available
  {
    var id := if workerID < 1 then 1 else workerID;
    available[(id - 1) % |available|]
  }

  /** The first n workers get the n addresses in their order, and n workers later it is the same again. */
  lemma {:induction false} AddressesGoRound(available: seq<string>, workerID: int)
    requires available != []
    ensures workerID < 1 ==> SelectAddress(available, workerID) == available[0]
    ensures 1 <= workerID <= |available| ==> SelectAddress(available, workerID) == available[workerID - 1]
    ensures workerID >= 1 ==> SelectAddress(available, workerID + |available|) == SelectAddress(available, workerID)
  {
    var n := |available|;
    if workerID >= 1 {
      DivModUnique(workerID - 1 + n, n, (workerID - 1) / n + 1, (workerID - 1) % n);
      if workerID <= n { DivModUnique(workerID - 1, n, 0, workerID - 1); }
    } else {
      DivModUnique(0, n, 0, 0);
    }
  }

  /** A new address starts with a clean slate. */
  function Pick(w: Worker, addr: string, base: string): Worker {
    if addr != w.addr then Worker(addr, 0, base) else w
  }

  /** The worker after a session on its current address, and whether that address is banned. */
  function Settle(w: Worker, result: SessionResult, base: string): (Worker, bool) {
    match result
    case Ok => (Worker(w.addr, 0, base), false)
    case AddressDead => (w, true)
    case WrapTimeout =>
      if w.attempts + 1 >= MAX_ATTEMPTS then (Worker(w.addr, 0, NextMode(w.mode)), true)
      else (Worker(w.addr, w.attempts + 1, NextMode(w.mode)), false)
    case Fatal => (w, false)
    case Unknown => (w, false)
  }

  function Replay(log: seq<Round>, base: string): Worker {
    if log == [] then Worker("", 0, base)
    else
      var r := log[|log| - 1];
      Settle(Pick(Replay(log[..|log| - 1], base), r.addr, base), r.result, base).0
  }

  /** Whether the last session of a log made the worker ban its address. */
  predicate BansLast(log: seq<Round>, base: string)
    requires log != []
  {
    var r := log[|log| - 1];
    Settle(Pick(Replay(log[..|log| - 1], base), r.addr, base), r.result, base).1
  }

  // ---------------------------------------------------------------- the same, counted from the log

  function WrapTimeouts(log: seq<Round>): nat {
    if log == [] then 0
    else WrapTimeouts(log[..|log| - 1]) + (if log[|log| - 1].result == WrapTimeout then 1 else 0)
  }

  /** The sessions from start on are all on one address, none succeeded, and start is where that
      began: at the beginning, after a success, or where the address changed. */
  predicate SameAddressRun(log: seq<Round>, start: nat) {
    && start < |log|
    && (forall k :: start <= k < |log| ==> log[k].addr == log[start].addr && log[k].result != Ok)
    && (start == 0 || log[start - 1].result == Ok || log[start - 1].addr != log[start].addr)
  }

  lemma {:induction false} ReplayAddress(log: seq<Round>, base: string)
    ensures Replay(log, base).addr == if log == [] then "" else log[|log| - 1].addr
    ensures Replay(log, base).attempts < MAX_ATTEMPTS
    ensures log == [] || log[|log| - 1].result == Ok ==> Replay(log, base).attempts == 0 && Replay(log, base).mode == base
  {
    if log != [] {
      ReplayAddress(log[..|log| - 1], base);
    }
  }

  lemma CountFrom(log: seq<Round>, start: nat)
    requires start < |log|
    ensures WrapTimeouts(log[start..]) ==
            WrapTimeouts(log[..|log| - 1][start..]) + (if log[|log| - 1].result == WrapTimeout then 1 else 0)
  {
    assert log[start..][..|log| - start - 1] == log[..|log| - 1][start..];
  }

  /** The state in which the last session of a same-address run started. */
  lemma RunBefore(log: seq<Round>, start: nat, base: string)
    requires SameAddressRun(log, start)
    ensures start == |log| - 1 ==>
              Pick(Replay(log[..start], base), log[start].addr, base) == Worker(log[start].addr, 0, base)
    ensures start < |log| - 1 ==> SameAddressRun(log[..|log| - 1], start)
  {
    if start == |log| - 1 {
      ReplayAddress(log[..start], base);
      if start > 0 { assert log[..start][start - 1] == log[start - 1]; }
    }
  }

  lemma SettleRun(addr: string, n: nat, base: string, result: SessionResult)
    requires result != Ok
    ensures var m := if result == WrapTimeout then n + 1 else n;
            Settle(Worker(addr, n % MAX_ATTEMPTS, Toggled(base, n)), result, base) ==
            (Worker(addr, m % MAX_ATTEMPTS, Toggled(base, m)),
             result == AddressDead || (result == WrapTimeout && m % MAX_ATTEMPTS == 0))
  {
  }

  /** On an uninterrupted run of sessions on one address, with n WRAP timeouts among them, the
      attempt counter is n mod 3 and the mode has changed n times; the last session bans the address
      exactly when it found the address dead or was a third WRAP timeout. */
  lemma {:induction false} AttemptsCountWrapTimeouts(log: seq<Round>, start: nat, base: string)
    requires SameAddressRun(log, start)
    ensures var n := WrapTimeouts(log[start..]);
            && Replay(log, base) == Worker(log[start].addr, n % MAX_ATTEMPTS, Toggled(base, n))
            && (BansLast(log, base) <==>
                 log[|log| - 1].result == AddressDead || (log[|log| - 1].result == WrapTimeout && n % MAX_ATTEMPTS == 0))
    decreases |log|
  {
    var before := log[..|log| - 1];
    CountFrom(log, start);
    RunBefore(log, start, base);
    SettleRun(log[start].addr, WrapTimeouts(before[start..]), base, log[|log| - 1].result);
    if start < |log| - 1 {
      AttemptsCountWrapTimeouts(before, start, base);
    } else {
      assert before[start..] == [];
    }
  }

  /** After a WRAP timeout the next attempt on the same address uses the other mode. */
  lemma NextAttemptChangesMode(log: seq<Round>, base: string)
    requires log != [] && log[|log| - 1].result == WrapTimeout
    ensures var addr := log[|log| - 1].addr;
            Pick(Replay(log, base), addr, base).mode != Pick(Replay(log[..|log| - 1], base), addr, base).mode
  {
    ReplayAddress(log, base);
  }

  // ---------------------------------------------------------------- the loop

  /**
   What happens around one pass of the loop: the bans by other workers before the addresses are
   checked, the moment at which each address is checked, the moment the checks are over, the bans by
   others from then on, how the session ends and when.  A ban is an address and its moment.
   */
  datatype Env = Env(
    before: seq<(string, int)>, clock: nat -> int, now: int,
    during: seq<(string, int)>, result: SessionResult, ended: int)

  /** The clock never goes back. */
  ghost predicate Ascending(clock: nat -> int) {
    forall i: nat, j: nat :: i <= j ==> clock(i) <= clock(j)
  }

  ghost predicate Chronological(list: seq<(string, int)>, from: int, to: int) {
    && (forall i :: 0 <= i < |list| ==> from <= list[i].1 <= to)
    && forall i, j :: 0 <= i < j < |list| ==> list[i].1 <= list[j].1
  }

  ghost predicate PassOrdered(e: Env, from: int) {
    && from <= e.clock(0) && Ascending(e.clock) && (forall i: nat :: e.clock(i) <= e.now) && e.now <= e.ended
    && Chronological(e.before, from, e.clock(0)) && Chronological(e.during, e.now, e.ended)
  }

  function EndOf(env: seq<Env>, from: int): int {
    if env == [] then from else env[|env| - 1].ended
  }

  ghost predicate Ordered(env: seq<Env>, from: int) {
    forall i :: 0 <= i < |env| ==> PassOrdered(env[i], EndOf(env[..i], from))
  }

  function BanEach(bans: Bans, list: seq<(string, int)>, ttl: nat): Bans {
    if list == [] then bans
    else BanEach(bans, list[..|list| - 1], ttl)[list[|list| - 1].0 := list[|list| - 1].1 + ttl]
  }

  /** Some check of the address finds no ban. */
  predicate FoundOpen(urls: seq<string>, bans: Bans, clock: nat -> int, addr: string) {
    exists i: nat :: i < |urls| && urls[i] == addr && !Banned(bans, addr, clock(i))
  }

  /** The addresses not banned at their checks, in order. */
  function Open(urls: seq<string>, bans: Bans, clock: nat -> int): (r: seq<string>)
    ensures forall u :: u in r <==> FoundOpen(urls, bans, clock, u)
  {
    if urls == [] then []
    else
      var n := |urls| - 1;
      var init, u := urls[..n], urls[n];
      assert forall i :: 0 <= i < n ==> init[i] == urls[i];
      assert forall v :: FoundOpen(urls, bans, clock, v) <==>
        FoundOpen(init, bans, clock, v) || (v == u && !Banned(bans, u, clock(n)));
      Open(init, bans, clock) + (if Banned(bans, u, clock(n)) then [] else [u])
  }

  /** They are the addresses found open, each where its check comes, and no address besides. */
  lemma {:induction false} OpenInOrder(urls: seq<string>, bans: Bans, clock: nat -> int) returns (at: seq<nat>)
    ensures |at| == |Open(urls, bans, clock)| && forall i :: 0 <= i < |at| ==> at[i] < |urls| && Open(urls, bans, clock)[i] == urls[at[i]]
    ensures forall i, j :: 0 <= i < j < |at| ==> at[i] < at[j]
    ensures forall k: nat :: k in at <==> k < |urls| && !(urls[k] in bans && clock(k) <= bans[urls[k]])
  {
    if urls == [] {
      at := [];
    } else {
      var n := |urls| - 1;
      at := OpenInOrder(urls[..n], bans, clock);
      if !Banned(bans, urls[n], clock(n)) {
        at := at + [n];
      }
    }
  }

  function ForgetEach(urls: seq<string>, bans: Bans, clock: nat -> int): Bans {
    if urls == [] then bans
    else
      var n := |urls| - 1;
      Forgotten(ForgetEach(urls[..n], bans, clock), urls[n], clock(n))
  }

  /** The worker, its sessions, the blacklist, and whether a fatal error has ended the loop. */
  datatype Course = Course(w: Worker, log: seq<Round>, bans: Bans, over: bool)

  /** What one worker is: its number, its addresses and the mode of the connection. */
  datatype Job = Job(workerID: int, urls: seq<string>, base: string, ttl: nat)

  function Checked(c: Course, job: Job, e: Env): Bans {
    BanEach(c.bans, e.before, job.ttl)
  }

  function PassOf(c: Course, job: Job, e: Env): Course {
    var bans := Checked(c, job, e);
    var open := Open(job.urls, bans, e.clock);
    var kept := ForgetEach(job.urls, bans, e.clock);
    if open == [] then c.(bans := kept)
    else
      var addr := SelectAddress(open, job.workerID);
      var picked := Pick(c.w, addr, job.base);
      var later := BanEach(kept, e.during, job.ttl);
      var (w, banned) := Settle(picked, e.result, job.base);
      Course(w, c.log + [Round(addr, picked.mode, e.now, e.result, e.ended)],
             if banned then later[addr := e.ended + job.ttl] else later, e.result == Fatal)
  }

  function CourseOf(job: Job, bans: Bans, env: seq<Env>): Course {
    if env == [] then Course(Worker("", 0, job.base), [], bans, false)
    else
      var c := CourseOf(job, bans, env[..|env| - 1]);
      if c.over then c else PassOf(c, job, env[|env| - 1])
  }

  // ---------------------------------------------------------------- the loop, step by step

  method FilterBanned(urls: seq<string>, blacklist: Blacklist, clock: nat -> int) returns (available: seq<string>)
    requires Ascending(clock)
    modifies blacklist`bans
    ensures available == Open(urls, old(blacklist.bans), clock)
    ensures blacklist.bans == ForgetEach(urls, old(blacklist.bans), clock)
  {
    available := [];
    for i := 0 to |urls|
      invariant available == Open(urls[..i], old(blacklist.bans), clock)
      invariant blacklist.bans == ForgetEach(urls[..i], old(blacklist.bans), clock)
      invariant forall u, t :: t >= clock(i) ==> Banned(blacklist.bans, u, t) == Banned(old(blacklist.bans), u, t)
    {
      assert urls[..i + 1][..i] == urls[..i];
      var banned := blacklist.IsBanned(urls[i], clock(i));
      if !banned {
        available := available + [urls[i]];
      }
    }
    assert urls[..|urls|] == urls;
  }

  method BanAll(list: seq<(string, int)>, blacklist: Blacklist)
    modifies blacklist`bans
    ensures blacklist.bans == BanEach(old(blacklist.bans), list, blacklist.ttl)
  {
    for i := 0 to |list|
      invariant blacklist.bans == BanEach(old(blacklist.bans), list[..i], blacklist.ttl)
    {
      assert list[..i + 1][..i] == list[..i];
      blacklist.Ban(list[i].0, list[i].1);
    }
    assert list[..|list|] == list;
  }

  /** The error switch after a session on the worker's address. */
  method HandleResult(w: Worker, result: SessionResult, ended: int, base: string, blacklist: Blacklist) returns (next: Worker)
    modifies blacklist`bans
    ensures next == Settle(w, result, base).0
    ensures blacklist.bans
         == if Settle(w, result, base).1 then old(blacklist.bans)[w.addr := ended + blacklist.ttl] else old(blacklist.bans)
  {
    next := w;
    match result {
      case AddressDead =>
        blacklist.Ban(w.addr, ended);
      case WrapTimeout =>
        next := Worker(w.addr, w.attempts + 1, NextMode(w.mode));
        if next.attempts >= MAX_ATTEMPTS {
          blacklist.Ban(w.addr, ended);
          next := Worker(w.addr, 0, next.mode);
        }
      case Fatal =>
      case Unknown =>
      case Ok =>
        next := Worker(w.addr, 0, base);
    }
  }

  lemma {:induction false} FatalEnds(job: Job, bans: Bans, env: seq<Env>, k: nat)
    requires k <= |env| && CourseOf(job, bans, env[..k]).over
    ensures CourseOf(job, bans, env) == CourseOf(job, bans, env[..k])
    decreases |env|
  {
    if k == |env| {
      assert env[..k] == env;
    } else {
      assert env[..|env| - 1][..k] == env[..k];
      FatalEnds(job, bans, env[..|env| - 1], k);
    }
  }

  /** In every course the loop is over exactly when its last session ended with a fatal error, and no
      earlier session did. */
  lemma {:induction false} OverExactlyAtFatal(job: Job, bans: Bans, env: seq<Env>)
    ensures var c := CourseOf(job, bans, env);
            && (c.over <==> c.log != [] && c.log[|c.log| - 1].result == Fatal)
            && forall k :: 0 <= k < |c.log| - 1 ==> c.log[k].result != Fatal
    decreases |env|
  {
    hide Settle, Open, ForgetEach, BanEach, Pick, SelectAddress;
    if env != [] {
      OverExactlyAtFatal(job, bans, env[..|env| - 1]);
    }
  }

  /** One pass of the loop. */
  method Pass(w: Worker, log: seq<Round>, workerID: int, urls: seq<string>, base: string, e: Env, blacklist: Blacklist)
    returns (w': Worker, log': seq<Round>, fatal: bool)
    requires Ascending(e.clock)
    modifies blacklist`bans
    ensures Course(w', log', blacklist.bans, fatal)
         == PassOf(Course(w, log, old(blacklist.bans), false), Job(workerID, urls, base, blacklist.ttl), e)
    ensures fatal <==> |log'| > |log| && e.result == Fatal
  {
    hide Settle, BanEach, ForgetEach, Open;
    w', log', fatal := w, log, false;
    BanAll(e.before, blacklist);
    var available := FilterBanned(urls, blacklist, e.clock);
    if |available| == 0 {
      return;
    }
    var turnAddr := SelectAddress(available, workerID);
    if turnAddr != w'.addr {
      w' := Worker(turnAddr, 0, base);
    }
    log' := log + [Round(turnAddr, w'.mode, e.now, e.result, e.ended)];
    BanAll(e.during, blacklist);
    w' := HandleResult(w', e.result, e.ended, base, blacklist);
    fatal := e.result == Fatal;
  }

  /** The worker's goroutine, over any finite course of events; a fatal error ends it.  log records
      its sessions. */
  method RunWorker(workerID: int, urls: seq<string>, base: string, env: seq<Env>, blacklist: Blacklist)
    returns (w: Worker, log: seq<Round>, over: bool)
    requires forall i :: 0 <= i < |env| ==> Ascending(env[i].clock)
    modifies blacklist`bans
    ensures Course(w, log, blacklist.bans, over)
         == CourseOf(Job(workerID, urls, base, blacklist.ttl), old(blacklist.bans), env)
    ensures over <==> log != [] && log[|log| - 1].result == Fatal
    ensures forall k :: 0 <= k < |log| - 1 ==> log[k].result != Fatal
  {
    hide PassOf;
    OverExactlyAtFatal(Job(workerID, urls, base, blacklist.ttl), blacklist.bans, env);
    w, log, over := Worker("", 0, base), [], false;
    ghost var job := Job(workerID, urls, base, blacklist.ttl);
    for i := 0 to |env|
      invariant !over && Course(w, log, blacklist.bans, over) == CourseOf(job, old(blacklist.bans), env[..i])
    {
      assert env[..i + 1][..i] == env[..i];
      w, log, over := Pass(w, log, workerID, urls, base, env[i], blacklist);
      if over {
        FatalEnds(job, old(blacklist.bans), env, i + 1);
        return;
      }
    }
    assert env[..|env|] == env;
  }

  // ---------------------------------------------------------------- what every course guarantees

  /** Every round was on an offered address and continues the state the log so far leads to. */
  ghost predicate Faithful(log: seq<Round>, urls: seq<string>, base: string) {
    forall k :: 0 <= k < |log| ==>
      log[k].addr in urls && log[k].mode == Pick(Replay(log[..k], base), log[k].addr, base).mode
  }

  /** No session starts on an address that an earlier session of this log banned, until the ban is
      over. */
  ghost predicate RespectsBans(log: seq<Round>, base: string, ttl: nat) {
    forall i, j :: 0 <= i < j < |log| && BansLast(log[..i + 1], base) && log[j].addr == log[i].addr ==>
      log[j].at > log[i].ended + ttl
  }

  /** The bans of the log that are not over at the moment are on the blacklist, at least as long. */
  ghost predicate InForce(log: seq<Round>, bans: Bans, base: string, ttl: nat, now: int) {
    forall i :: 0 <= i < |log| && BansLast(log[..i + 1], base) && now <= log[i].ended + ttl ==>
      log[i].addr in bans && bans[log[i].addr] >= log[i].ended + ttl
  }

  /** No ban lasts longer than one begun at the moment. */
  ghost predicate Bounded(bans: Bans, now: int, ttl: nat) {
    forall a :: a in bans ==> bans[a] <= now + ttl
  }

  /** Bans in force at the moment are kept, at least as long. */
  ghost predicate Keeps(before: Bans, after: Bans, now: int) {
    forall a :: a in before && now <= before[a] ==> a in after && after[a] >= before[a]
  }

  ghost predicate Good(c: Course, job: Job, now: int) {
    && c.w == Replay(c.log, job.base) && c.w.attempts < MAX_ATTEMPTS
    && Faithful(c.log, job.urls, job.base) && RespectsBans(c.log, job.base, job.ttl)
    && (forall k :: 0 <= k < |c.log| ==> c.log[k].ended <= now)
    && InForce(c.log, c.bans, job.base, job.ttl, now) && Bounded(c.bans, now, job.ttl)
  }

  lemma {:induction false} BanEachKeeps(bans: Bans, list: seq<(string, int)>, ttl: nat, from: int, to: int)
    requires Bounded(bans, from, ttl) && from <= to && Chronological(list, from, to)
    ensures Bounded(BanEach(bans, list, ttl), to, ttl) && Keeps(bans, BanEach(bans, list, ttl), from)
    decreases |list|
  {
    if list != [] {
      BanEachKeeps(bans, list[..|list| - 1], ttl, from, list[|list| - 1].1);
    }
  }

  lemma {:induction false} ForgetEachKeeps(urls: seq<string>, bans: Bans, clock: nat -> int, now: int)
    requires forall i: nat :: clock(i) <= now
    ensures Keeps(bans, ForgetEach(urls, bans, clock), now)
    ensures forall a :: a in ForgetEach(urls, bans, clock) ==> a in bans && ForgetEach(urls, bans, clock)[a] == bans[a]
  {
    if urls != [] {
      ForgetEachKeeps(urls[..|urls| - 1], bans, clock, now);
    }
  }

  lemma PrefixOfLonger(log: seq<Round>, r: Round, k: nat)
    requires k <= |log|
    ensures (log + [r])[..k] == log[..k]
  {
  }

  lemma ReplayStep(log: seq<Round>, r: Round, base: string)
    ensures (Replay(log + [r], base), BansLast(log + [r], base)) == Settle(Pick(Replay(log, base), r.addr, base), r.result, base)
  {
    assert (log + [r])[..|log|] == log;
  }

  lemma LogGrows(log: seq<Round>, r: Round, urls: seq<string>, base: string, ttl: nat)
    requires Faithful(log, urls, base) && RespectsBans(log, base, ttl)
    requires r.addr in urls && r.mode == Pick(Replay(log, base), r.addr, base).mode
    requires forall i :: 0 <= i < |log| && BansLast(log[..i + 1], base) && r.addr == log[i].addr ==> r.at > log[i].ended + ttl
    ensures Faithful(log + [r], urls, base) && RespectsBans(log + [r], base, ttl)
  {
    var longer := log + [r];
    forall k | 0 <= k < |longer|
      ensures longer[k].addr in urls && longer[k].mode == Pick(Replay(longer[..k], base), longer[k].addr, base).mode
    {
      PrefixOfLonger(log, r, k);
      if k == |log| { assert log[..k] == log; }
    }
    forall i, j | 0 <= i < j < |longer| && BansLast(longer[..i + 1], base) && longer[j].addr == longer[i].addr
      ensures longer[j].at > longer[i].ended + ttl
    {
      PrefixOfLonger(log, r, i + 1);
    }
  }

  lemma BansStayInForce(log: seq<Round>, r: Round, base: string, ttl: nat, before: Bans, after: Bans, now: int)
    requires InForce(log, before, base, ttl, now) && Keeps(before, after, now) && now <= r.ended
    requires BansLast(log + [r], base) ==> r.addr in after && after[r.addr] >= r.ended + ttl
    ensures InForce(log + [r], after, base, ttl, r.ended)
  {
    var longer := log + [r];
    forall i | 0 <= i < |longer| && BansLast(longer[..i + 1], base) && r.ended <= longer[i].ended + ttl
      ensures longer[i].addr in after && after[longer[i].addr] >= longer[i].ended + ttl
    {
      if i < |log| { PrefixOfLonger(log, r, i + 1); } else { assert longer[..i + 1] == longer; }
    }
  }

  /** The bans at the check, and after the expired ones have been forgotten. */
  lemma CheckKeeps(c: Course, job: Job, e: Env, from: int)
    requires Good(c, job, from) && PassOrdered(e, from)
    ensures var kept := ForgetEach(job.urls, Checked(c, job, e), e.clock);
            && Bounded(kept, e.now, job.ttl) && InForce(c.log, kept, job.base, job.ttl, e.now)
            && InForce(c.log, Checked(c, job, e), job.base, job.ttl, e.now)
  {
    hide Faithful, RespectsBans, Replay, BansLast, BanEach, ForgetEach;
    BanEachKeeps(c.bans, e.before, job.ttl, from, e.clock(0));
    ForgetEachKeeps(job.urls, Checked(c, job, e), e.clock, e.now);
  }

  lemma PassKeepsGood(c: Course, job: Job, e: Env, from: int)
    requires Good(c, job, from) && PassOrdered(e, from)
    ensures Good(PassOf(c, job, e), job, e.ended)
  {
    hide Faithful, RespectsBans, Replay, BansLast, BanEach, ForgetEach, Settle, InForce;
    CheckKeeps(c, job, e, from);
    var checked := Checked(c, job, e);
    var kept := ForgetEach(job.urls, checked, e.clock);
    var open := Open(job.urls, checked, e.clock);
    if open == [] {
      InForceLater(c.log, kept, job.base, job.ttl, e.now, e.ended);
    } else {
      var addr := SelectAddress(open, job.workerID);
      var picked := Pick(c.w, addr, job.base);
      var r := Round(addr, picked.mode, e.now, e.result, e.ended);
      var later := BanEach(kept, e.during, job.ttl);
      BanEachKeeps(kept, e.during, job.ttl, e.now, e.ended);
      OpenIsOver(c.log, checked, job.base, job.ttl, e.now, addr);
      LogGrows(c.log, r, job.urls, job.base, job.ttl);
      ReplayStep(c.log, r, job.base);
      ReplayAddress(c.log + [r], job.base);
      BansStayInForce(c.log, r, job.base, job.ttl, kept, PassOf(c, job, e).bans, e.now);
    }
  }

  lemma InForceLater(log: seq<Round>, bans: Bans, base: string, ttl: nat, now: int, later: int)
    requires InForce(log, bans, base, ttl, now) && now <= later
    ensures InForce(log, bans, base, ttl, later)
  {
    hide BansLast;
  }

  lemma OpenIsOver(log: seq<Round>, bans: Bans, base: string, ttl: nat, now: int, addr: string)
    requires InForce(log, bans, base, ttl, now) && !Banned(bans, addr, now)
    ensures forall i :: 0 <= i < |log| && BansLast(log[..i + 1], base) && addr == log[i].addr ==> now > log[i].ended + ttl
  {
    hide BansLast;
  }

  lemma OrderedInit(env: seq<Env>, from: int)
    requires Ordered(env, from) && env != []
    ensures var init, e := env[..|env| - 1], env[|env| - 1];
            Ordered(init, from) && PassOrdered(e, EndOf(init, from)) && EndOf(init, from) <= e.ended
  {
    hide Chronological;
    var init := env[..|env| - 1];
    assert forall i :: 0 <= i < |init| ==> init[i] == env[i] && init[..i] == env[..i];
    assert PassOrdered(env[|env| - 1], EndOf(init, from));
  }

  lemma StaysGood(c: Course, job: Job, from: int, to: int)
    requires Good(c, job, from) && from <= to
    ensures Good(c, job, to)
  {
    hide Faithful, RespectsBans, InForce, Replay;
    InForceLater(c.log, c.bans, job.base, job.ttl, from, to);
  }

  /** Over every course of events the state is what the log implies, there are fewer than three
      attempts, and no session is on an address before an earlier ban of this worker is over. */
  lemma {:induction false} CourseIsGood(job: Job, bans: Bans, env: seq<Env>, from: int)
    requires Ordered(env, from) && Bounded(bans, from, job.ttl)
    ensures Good(CourseOf(job, bans, env), job, EndOf(env, from))
    decreases |env|
  {
    hide PassOf, Good, Ordered, PassOrdered, Bounded;
    if env == [] {
      StartIsGood(job, bans, from);
    } else {
      var init, e := env[..|env| - 1], env[|env| - 1];
      OrderedInit(env, from);
      CourseIsGood(job, bans, init, from);
      var c := CourseOf(job, bans, init);
      if c.over {
        StaysGood(c, job, EndOf(init, from), e.ended);
      } else {
        PassKeepsGood(c, job, e, EndOf(init, from));
      }
    }
  }

  lemma StartIsGood(job: Job, bans: Bans, from: int)
    requires Bounded(bans, from, job.ttl)
    ensures Good(Course(Worker("", 0, job.base), [], bans, false), job, from)
  {
  }

  /** A pass starts a session exactly when some address is not banned at its check, on such an address. */
  lemma SessionExactlyWhenOpen(c: Course, job: Job, e: Env)
    ensures var after, banned := PassOf(c, job, e), Checked(c, job, e);
            if forall i: nat :: i < |job.urls| ==> Banned(banned, job.urls[i], e.clock(i)) then after.log == c.log
            else
              && |after.log| == |c.log| + 1 && after.log[..|c.log|] == c.log
              && var r := after.log[|c.log|];
                 && FoundOpen(job.urls, banned, e.clock, r.addr)
                 && r.addr == SelectAddress(Open(job.urls, banned, e.clock), job.workerID)
                 && r.at == e.now && r.result == e.result && r.ended == e.ended
                 && r.mode == Pick(c.w, r.addr, job.base).mode
  {
    hide BanEach, ForgetEach, Settle, Checked;
    var open, banned := Open(job.urls, Checked(c, job, e), e.clock), Checked(c, job, e);
    if open != [] {
      assert open[0] in open && FoundOpen(job.urls, banned, e.clock, open[0]);
    }
    forall i: nat | i < |job.urls| && !Banned(banned, job.urls[i], e.clock(i)) ensures open != [] {
      assert FoundOpen(job.urls, banned, e.clock, job.urls[i]);
      assert job.urls[i] in open;
    }
  }
}
