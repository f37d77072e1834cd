/**
 The registry of VK hashes and the profiles that use it (backend/vk_hash_manager.go).  A profile
 lists hashes of its own and may also draw on the shared pool.  Profile names are already sanitized;
 whether a file can be read and written is a parameter of the operation.
 */
module HashRegistry {
  import opened VkHash
  import opened Wrappers

  datatype Mode = Local | LocalAndPool | Pool

  datatype Status = Valid | Invalid | Error | Other

  datatype Check = Check(status: Status, checkedAt: int)

  datatype Entry = Entry(id: string, hash: string, inPool: bool, checks: map<string, Check>)

  datatype Profile = Profile(hashes: seq<string>, mode: Mode)

  type Normalizing = string -> Option<string>

  // ---------------------------------------------------------------- entries

  function FindId(entries: seq<Entry>, id: string): (i: nat)
    ensures i <= |entries|
    ensures i < |entries| ==> entries[i].id == id
    ensures forall k :: 0 <= k < i ==> entries[k].id != id
  {
    if entries == [] || entries[0].id == id then 0 else 1 + FindId(entries[1..], id)
  }

  function FindHash(entries: seq<Entry>, hash: string): (i: nat)
    ensures i <= |entries|
    ensures i < |entries| ==> entries[i].hash == hash
    ensures forall k :: 0 <= k < i ==> entries[k].hash != hash
  {
    if entries == [] || entries[0].hash == hash then 0 else 1 + FindHash(entries[1..], hash)
  }

  /** No two entries share an id or a hash, and every hash is in normal form. */
  ghost predicate WellFormed(entries: seq<Entry>) {
    && (forall i :: 0 <= i < |entries| ==> Normal(entries[i].hash))
    && forall i, j :: 0 <= i < j < |entries| ==> entries[i].id != entries[j].id && entries[i].hash != entries[j].hash
  }

  ghost predicate NewId(entries: seq<Entry>, id: string) {
    forall i :: 0 <= i < |entries| ==> entries[i].id != id
  }

  function Dropped(entries: seq<Entry>, i: nat): seq<Entry>
    requires i < |entries|
  {
    entries[..i] + entries[i + 1..]
  }

  /** The registry with an entry for a hash, put into the pool if asked. */
  function Ensured(entries: seq<Entry>, hash: string, inPool: bool, newId: string): (r: seq<Entry>)
    ensures FindHash(r, hash) < |r|
  {
    var i := FindHash(entries, hash);
    if i == |entries| then
      var r := entries + [Entry(newId, hash, inPool, map[])];
      assert r[i].hash == hash;
      r
    else if inPool then
      var r := entries[i := entries[i].(inPool := true)];
      assert r[i].hash == hash;
      r
    else entries
  }

  lemma EnsuredKeeps(entries: seq<Entry>, hash: string, inPool: bool, newId: string)
    requires WellFormed(entries) && Normal(hash) && NewId(entries, newId)
    ensures var after := Ensured(entries, hash, inPool, newId);
            var i := FindHash(entries, hash);
            && WellFormed(after) && i < |after| && after[i].hash == hash
            && |entries| <= |after| <= |entries| + 1
            && (forall k :: 0 <= k < |entries| ==> after[k].id == entries[k].id && after[k].hash == entries[k].hash)
            && (forall k :: 0 <= k < |entries| && k != i ==> after[k] == entries[k])
  {
    hide FindHash;
  }

  lemma EnsuredExactly(entries: seq<Entry>, hash: string, inPool: bool, newId: string)
    ensures var i := FindHash(entries, hash);
            Ensured(entries, hash, inPool, newId) ==
              if i < |entries| then entries[i := entries[i].(inPool := entries[i].inPool || inPool)]
              else entries + [Entry(newId, hash, inPool, map[])]
  {
    var i := FindHash(entries, hash);
    if i < |entries| {
      assert entries[i := entries[i]] == entries;
      assert entries[i].(inPool := entries[i].inPool) == entries[i];
    }
  }

  function PoolSize(entries: seq<Entry>): nat {
    if entries == [] then 0 else (if entries[0].inPool then 1 else 0) + PoolSize(entries[1..])
  }

  lemma {:induction false} PoolOfSum(a: seq<Entry>, b: seq<Entry>)
    ensures PoolSize(a + b) == PoolSize(a) + PoolSize(b)
  {
    if a == [] {
      assert a + b == b;
    } else {
      assert (a + b)[1..] == a[1..] + b;
      PoolOfSum(a[1..], b);
    }
  }

  lemma PoolAt(entries: seq<Entry>, i: nat, e: Entry)
    requires i < |entries|
    ensures PoolSize(entries) == PoolSize(Dropped(entries, i)) + (if entries[i].inPool then 1 else 0)
    ensures PoolSize(entries[i := e]) == PoolSize(Dropped(entries, i)) + (if e.inPool then 1 else 0)
  {
    var a, b := entries[..i], entries[i + 1..];
    assert entries == a + ([entries[i]] + b);
    assert entries[i := e] == a + ([e] + b);
    PoolOfSum(a, b);
    PoolOfSum(a, [entries[i]] + b);
    PoolOfSum(a, [e] + b);
    PoolOfSum([entries[i]], b);
    PoolOfSum([e], b);
  }

  // ---------------------------------------------------------------- use

  predicate Contains(f: Normalizing, profile: Profile, hash: string) {
    exists i :: 0 <= i < |profile.hashes| && f(profile.hashes[i]) == Some(hash)
  }

  predicate Uses(f: Normalizing, profile: Profile, e: Entry) {
    Contains(f, profile, e.hash) || (e.inPool && profile.mode != Local)
  }

  function UsedBy(f: Normalizing, e: Entry, profiles: map<string, Profile>): set<string> {
    set name | name in profiles && Uses(f, profiles[name], e)
  }

  /** A profile uses the hashes it lists, in any spelling, and the pool's unless it is confined to its own. */
  lemma UsedExactly(f: Normalizing, e: Entry, profiles: map<string, Profile>, name: string)
    ensures name in UsedBy(f, e, profiles) <==>
              && name in profiles
              && ((exists raw :: raw in profiles[name].hashes && f(raw) == Some(e.hash))
                  || (e.inPool && (profiles[name].mode == Pool || profiles[name].mode == LocalAndPool)))
  {
    if name in profiles && Contains(f, profiles[name], e.hash) {
      var i :| 0 <= i < |profiles[name].hashes| && f(profiles[name].hashes[i]) == Some(e.hash);
      assert profiles[name].hashes[i] in profiles[name].hashes;
    }
  }

  predicate Visible(f: Normalizing, e: Entry, profiles: map<string, Profile>) {
    e.inPool || UsedBy(f, e, profiles) != {}
  }

  /** Every entry that a profile lists is still there, with its hash. */
  ghost predicate KeepsUsed(f: Normalizing, before: seq<Entry>, after: seq<Entry>, profiles: map<string, Profile>) {
    forall i :: 0 <= i < |before| ==> Kept(after, before[i]) || UsedBy(f, before[i].(inPool := false), profiles) == {}
  }

  ghost predicate Kept(after: seq<Entry>, e: Entry) {
    exists k :: 0 <= k < |after| && after[k].id == e.id && after[k].hash == e.hash
  }

  lemma DropKeeps(f: Normalizing, before: seq<Entry>, i: nat, profiles: map<string, Profile>)
    requires WellFormed(before) && i < |before|
    requires UsedBy(f, before[i].(inPool := false), profiles) == {}
    ensures WellFormed(Dropped(before, i)) && KeepsUsed(f, before, Dropped(before, i), profiles)
    ensures FindId(Dropped(before, i), before[i].id) == |before| - 1
  {
    var after := Dropped(before, i);
    forall k | 0 <= k < |before| && k != i ensures Kept(after, before[k]) {
      var m := if k < i then k else k - 1;
      assert after[m] == before[k];
    }
  }

  lemma SameIdsKeepUsed(f: Normalizing, before: seq<Entry>, after: seq<Entry>, profiles: map<string, Profile>)
    requires SameIds(before, after)
    ensures KeepsUsed(f, before, after, profiles)
  {
    forall i | 0 <= i < |before| ensures Kept(after, before[i]) {
      assert after[i].id == before[i].id && after[i].hash == before[i].hash;
    }
  }

  // ---------------------------------------------------------------- candidates

  /** The entries with a hash not seen before, in order. */
  function Unique(entries: seq<Entry>): seq<Entry> {
    if entries == [] then []
    else
      var before, e := Unique(entries[..|entries| - 1]), entries[|entries| - 1];
      if FindHash(before, e.hash) < |before| then before else before + [e]
  }

  function InPool(entries: seq<Entry>): seq<Entry> {
    if entries == [] then []
    else InPool(entries[..|entries| - 1]) + (if entries[|entries| - 1].inPool then [entries[|entries| - 1]] else [])
  }

  /** Hashes are distinct, all there, and the first entry with a hash is the one kept. */
  lemma {:induction false} UniqueMeaning(entries: seq<Entry>)
    ensures var r := Unique(entries);
            && (forall i, j :: 0 <= i < j < |r| ==> r[i].hash != r[j].hash)
            && (forall e :: e in r ==> e in entries)
            && (forall k :: 0 <= k < |entries| ==> FindHash(r, entries[k].hash) < |r|)
  {
    if entries != [] {
      UniqueMeaning(entries[..|entries| - 1]);
      var before, r := Unique(entries[..|entries| - 1]), Unique(entries);
      forall k | 0 <= k < |entries| ensures FindHash(r, entries[k].hash) < |r| {
        if k < |entries| - 1 {
          assert entries[..|entries| - 1][k] == entries[k];
          assert r[FindHash(before, entries[k].hash)].hash == entries[k].hash;
        } else if FindHash(before, entries[k].hash) == |before| {
          assert r[|r| - 1].hash == entries[k].hash;
        }
      }
    }
  }

  lemma {:induction false} InPoolMeaning(entries: seq<Entry>)
    ensures forall e :: e in InPool(entries) <==> e in entries && e.inPool
  {
    if entries != [] {
      InPoolMeaning(entries[..|entries| - 1]);
      assert entries == entries[..|entries| - 1] + [entries[|entries| - 1]];
    }
  }

  method SelectCandidates(local: seq<Entry>, pool: seq<Entry>, mode: Mode) returns (r: seq<Entry>)
    ensures r == Unique((if mode == Pool then [] else local) + (if mode == Local then [] else pool))
  {
    r := [];
    ghost var before: seq<Entry> := [];
    if mode != Pool {
      r := AppendUnique(r, local, before);
      before := local;
      assert [] + local == local == local + [];
    }
    if mode != Local {
      r := AppendUnique(r, pool, before);
    }
  }

  method AppendUnique(start: seq<Entry>, entries: seq<Entry>, ghost before: seq<Entry>) returns (r: seq<Entry>)
    requires start == Unique(before)
    ensures r == Unique(before + entries)
  {
    r := start;
    assert before + entries[..0] == before;
    for n := 0 to |entries|
      invariant r == Unique(before + entries[..n])
    {
      ghost var next := before + entries[..n + 1];
      assert next[..|next| - 1] == before + entries[..n];
      if FindHash(r, entries[n].hash) == |r| {
        r := r + [entries[n]];
      }
    }
    assert entries[..|entries|] == entries;
  }

  // ---------------------------------------------------------------- the store

  datatype Verdict = Checked(status: Status, at: int) | CheckCanceled | CheckFailed

  /** What the outside says to one replacement, in order: contexts still live, files written, the probe. */
  datatype Weather = Weather(liveBefore: bool, vk: Vk, liveAfterCall: bool, registered: bool, verdict: Verdict,
                             recorded: bool, cleaned: bool, liveAfterCheck: bool, profileSaved: bool, committed: bool)

  datatype ReplaceError = NoServer | Interrupted | NotFound | NoNewHash | Disk | Rejected | NotUsed

  class HashStore {
    const f: Normalizing
    var entries: seq<Entry>
    var profiles: map<string, Profile>

    ghost predicate Ok()
      reads this
    {
      Normalizer(f) && WellFormed(entries)
    }

    constructor (f: Normalizing)
      requires Normalizer(f)
      ensures Ok() && this.f == f && entries == [] && profiles == map[]
    {
      this.f := f;
      entries, profiles := [], map[];
    }

    /** ensureVKHashEntry and the write of the registry. */
    method Ensure(raw: string, inPool: bool, newId: string, saved: bool) returns (e: Option<Entry>)
      requires Ok() && NewId(entries, newId)
      modifies this`entries
      ensures Ok()
      ensures e.Some? <==> f(raw).Some? && saved
      ensures e.None? ==> entries == old(entries)
      ensures e.Some? ==> entries == Ensured(old(entries), f(raw).value, inPool, newId)
      ensures e.Some? ==>
                var i := FindHash(old(entries), f(raw).value);
                if i < |old(entries)| then
                  var known := old(entries)[i]; entries == old(entries)[i := known.(inPool := known.inPool || inPool)]
                else entries == old(entries) + [Entry(newId, f(raw).value, inPool, map[])]
      ensures e.Some? ==> e.value == entries[FindHash(entries, f(raw).value)]
      ensures e.Some? ==> e.value in entries && e.value.hash == f(raw).value && (inPool ==> e.value.inPool)
    {
      var hash := f(raw);
      if hash.None? || !saved {
        return None;
      }
      EnsuredKeeps(entries, hash.value, inPool, newId);
      EnsuredExactly(entries, hash.value, inPool, newId);
      entries := Ensured(entries, hash.value, inPool, newId);
      e := Some(entries[FindHash(entries, hash.value)]);
    }

    /** Deleting takes a hash out of the pool; its entry goes only when no profile lists it. */
    method Delete(id: string, saved: bool) returns (ok: bool)
      requires Ok()
      modifies this`entries
      ensures Ok() && KeepsUsed(f, old(entries), entries, profiles)
      ensures var i := FindId(old(entries), id);
              && (ok <==> i < |old(entries)| && saved)
              && (!ok ==> entries == old(entries))
              && (ok ==> var out := old(entries)[i].(inPool := false);
                         entries == if UsedBy(f, out, profiles) == {} then Dropped(old(entries), i)
                                    else old(entries)[i := out])
    {
      SameIdsKeepUsed(f, entries, entries, profiles);
      var i := FindId(entries, id);
      if i == |entries| || !saved {
        return false;
      }
      var out := entries[i].(inPool := false);
      SameIdsKeepUsed(f, entries, entries[i := out], profiles);
      if UsedBy(f, out, profiles) == {} {
        DropKeeps(f, entries, i, profiles);
        entries := Dropped(entries, i);
      } else {
        entries := entries[i := out];
      }
      ok := true;
    }

    method Cleanup(id: string, saved: bool)
      requires Ok()
      modifies this`entries
      ensures Ok() && KeepsUsed(f, old(entries), entries, profiles) && PoolSize(entries) == PoolSize(old(entries))
      ensures var i := FindId(old(entries), id);
              entries == if i < |old(entries)| && saved && !Visible(f, old(entries)[i], profiles)
                         then Dropped(old(entries), i) else old(entries)
    {
      SameIdsKeepUsed(f, entries, entries, profiles);
      var i := FindId(entries, id);
      if i == |entries| || entries[i].inPool {
        return;
      }
      if UsedBy(f, entries[i], profiles) != {} || !saved {
        return;
      }
      assert entries[i] == entries[i].(inPool := false);
      DropKeeps(f, entries, i, profiles);
      PoolAt(entries, i, entries[i]);
      entries := Dropped(entries, i);
    }

    /** candidateVKHashes: the profile's own hashes, then the pool, as its mode allows, each hash once. */
    method Candidates(localHashes: seq<string>, mode: Mode, newIds: seq<string>, saved: bool)
      returns (r: Option<seq<Entry>>)
      requires Ok() && |newIds| >= |localHashes|
      requires forall k :: 0 <= k < |newIds| ==> NewId(entries, newIds[k])
      requires forall j, k :: 0 <= j < k < |newIds| ==> newIds[j] != newIds[k]
      modifies this`entries
      ensures Ok() && old(entries) <= entries && PoolSize(entries) == PoolSize(old(entries))
      ensures r.None? ==> entries == old(entries)
      ensures r.None? ==> !saved || exists k :: 0 <= k < |localHashes| && f(localHashes[k]).None?
      ensures r.Some? ==> Registered(f, entries, localHashes)
      ensures r.Some? ==> r.value == Chosen(f, entries, localHashes, mode)
    {
      hide FindHash, Ensured, Located, Registered, WellFormed, NewId, PoolSize, Unique, InPool;
      var draft, local, changed := entries, [], false;
      NothingLocated(f, draft);
      for n := 0 to |localHashes|
        invariant entries == old(entries) && entries <= draft && PoolSize(draft) == PoolSize(entries)
        invariant WellFormed(draft) && (!changed ==> draft == entries)
        invariant forall k :: n <= k < |newIds| ==> NewId(draft, newIds[k])
        invariant Registered(f, draft, localHashes[..n])
        invariant local == Located(f, draft, localHashes[..n])
      {
        var hash := f(localHashes[n]);
        if hash.None? {
          return None;
        }
        RegisterNext(f, draft, localHashes[..n], localHashes[n], newIds[n]);
        assert localHashes[..n + 1] == localHashes[..n] + [localHashes[n]];
        changed := changed || FindHash(draft, hash.value) == |draft|;
        draft := Ensured(draft, hash.value, false, newIds[n]);
        local := local + [draft[FindHash(draft, hash.value)]];
      }
      assert localHashes[..|localHashes|] == localHashes;
      if changed && !saved {
        return None;
      }
      entries := draft;
      var chosen := SelectCandidates(local, InPool(draft), mode);
      r := Some(chosen);
    }

    /** The profile's part of a replacement: every spelling of the old hash becomes the new one. */
    method ReplaceInProfile(server: string, prior: string, successor: string, saved: bool) returns (found: bool, ok: bool)
      modifies this`profiles
      ensures found <==> server in old(profiles) && Contains(f, old(profiles)[server], prior)
      ensures ok <==> saved || !found
      ensures profiles == if ok then Substituted(f, old(profiles), server, prior, successor) else old(profiles)
    {
      hide Substitute;
      found, ok := false, true;
      if server !in profiles {
        return;
      }
      var hashes := profiles[server].hashes;
      ghost var wanted := Substitute(f, hashes, prior, successor);
      for n := 0 to |hashes|
        invariant |hashes| == |profiles[server].hashes|
        invariant forall k :: n <= k < |hashes| ==> hashes[k] == profiles[server].hashes[k]
        invariant forall k :: 0 <= k < n ==> hashes[k] == wanted[k]
        invariant found <==> exists k :: 0 <= k < n && f(profiles[server].hashes[k]) == Some(prior)
      {
        if f(hashes[n]) == Some(prior) {
          hashes := hashes[n := successor];
          found := true;
        }
      }
      assert hashes == wanted;
      SubstituteNothing(f, profiles[server], prior, successor);
      if found && saved {
        profiles := profiles[server := profiles[server].(hashes := hashes)];
      } else {
        ok := !found;
      }
    }

    /** Keeps the verdict of a probe with the entry. */
    method Record(id: string, server: string, check: Check)
      requires Ok() && FindId(entries, id) < |entries|
      modifies this`entries
      ensures Ok() && SameIds(old(entries), entries) && PoolSize(entries) == PoolSize(old(entries))
      ensures var n := FindId(old(entries), id);
              entries == old(entries)[n := old(entries)[n].(checks := old(entries)[n].checks[server := check])]
    {
      hide FindId, PoolSize;
      var n := FindId(entries, id);
      var e := entries[n].(checks := entries[n].checks[server := check]);
      PoolAt(entries, n, e);
      entries := entries[n := e];
    }

    /** The first part of a replacement: a hash VK has just made joins the registry, used by no one yet. */
    method Introduce(id: string, newId: string, w: Weather) returns (r: Result<(Entry, Entry), ReplaceError>)
      requires Ok() && NewId(entries, newId)
      modifies this`entries
      ensures Ok()
      ensures r.Failure? ==> entries == old(entries) && r.error in {Interrupted, NotFound, NoNewHash, Disk}
      ensures r.Success? ==> Introduced(f, old(entries), entries, profiles, id, newId, r.value.0, r.value.1)
      ensures match Introducing(f, Registry(old(entries), profiles), id, w)
              case Failure(error) => r == Failure(error)
              case Success((o, hash)) =>
                entries == Ensured(old(entries), hash, false, newId) && r == Success((o, entries[FindHash(entries, hash)]))
    {
      hide FindHash, FindId, WellFormed, Ensured, UsedBy, VisibleHashes, Fresh, Introduced;
      if !w.liveBefore {
        return Failure(Interrupted);
      }
      var existing := VisibleHashes(f, entries, profiles);
      var i := FindId(entries, id);
      if i == |entries| || !Visible(f, entries[i], profiles) {
        return Failure(NotFound);
      }
      var prior := entries[i];
      var generated, attempts, error := GenerateHashes(f, 1, existing, w.vk);
      if error.Some? {
        return Failure(NoNewHash);
      }
      if !w.liveAfterCall {
        return Failure(Interrupted);
      }
      assert OneHash(f, existing, w.vk) == Some(generated[0]);
      NewIsUnknown(f, existing, w.vk);
      var e := Ensure(generated[0], false, newId, w.registered);
      if e.None? {
        return Failure(Disk);
      }
      NewHashIsUnused(f, old(entries), profiles, id, newId, generated[0], e.value);
      r := Success((prior, e.value));
    }

    /** The second part: the new hash is probed, and an entry that failed is cleaned up. */
    method Verify(e: Entry, server: string, w: Weather, ghost newId: string) returns (error: Option<ReplaceError>)
      requires Ok() && e in entries && !e.inPool
      modifies this`entries
      ensures Ok() && KeepsUsed(f, old(entries), entries, profiles) && PoolSize(entries) == PoolSize(old(entries))
      ensures error.Some? ==> error.value in {Interrupted, Rejected, Disk}
      ensures error.Some? && w.cleaned && UsedBy(f, e, profiles) == {} ==> NewId(entries, e.id)
      ensures NewId(old(entries), newId) ==> NewId(entries, newId)
      ensures error.None? ==> w.verdict.Checked? && w.verdict.status == Valid
      ensures error.None? ==> entries == WithCheck(old(entries), e.id, server, Check(Valid, w.verdict.at))
      ensures (entries, error) == Verifying(f, old(entries), profiles, e.id, server, w)
    {
      hide FindId, FindHash, WellFormed, PoolSize, UsedBy, Kept, KeepsUsed;
      FoundById(entries, e);
      SameIdsKeepUsed(f, entries, entries, profiles);
      match w.verdict {
        case CheckFailed => error := Some(Rejected);
        case CheckCanceled => error := Some(Interrupted);
        case Checked(status, at) =>
          if w.recorded {
            Record(e.id, server, Check(status, at));
            SameIdsKeepUsed(f, old(entries), entries, profiles);
            CheckedMeaning(old(entries), e, server, Check(status, at));
          }
          error := if !w.recorded then Some(Disk) else if status != Valid then Some(Rejected)
                   else if !w.liveAfterCheck then Some(Interrupted) else None;
      }
      if error.Some? {
        ghost var checked := entries;
        Cleanup(e.id, w.cleaned);
        KeepsThrough(f, old(entries), checked, entries, profiles);
        if w.cleaned && UsedBy(f, e, profiles) == {} {
          SameUse(f, checked[FindId(checked, e.id)], e, profiles);
          DroppedIsGone(checked, FindId(checked, e.id));
        }
      }
    }

    /** The last part: the new hash takes the old one's place in the pool; an old one nobody lists goes. */
    method Commit(id: string, newId: string)
      requires Ok() && id != newId
      requires FindId(entries, id) < |entries| && FindId(entries, newId) < |entries|
      requires !entries[FindId(entries, newId)].inPool
      modifies this`entries
      ensures entries == Committed(f, old(entries), id, newId, profiles)
    {
      var i, n := FindId(entries, id), FindId(entries, newId);
      if entries[i].inPool {
        entries := entries[i := entries[i].(inPool := false)];
        entries := entries[n := entries[n].(inPool := true)];
      }
      if !entries[i].inPool && UsedBy(f, entries[i], profiles) == {} {
        entries := Dropped(entries, i);
      }
    }

    /** The last part of a replacement: the profile, then the pool, then the entry of the old hash. */
    method Finish(o: Entry, e: Entry, server: string, w: Weather) returns (error: Option<ReplaceError>)
      requires Ok() && o in entries && e in entries && o.id != e.id && !e.inPool
      modifies this
      ensures Ok() && KeepsUsed(f, old(entries), entries, profiles) && PoolSize(entries) == PoolSize(old(entries))
      ensures error == None || error == Some(Disk) || error == Some(NotUsed)
      ensures error.None? ==> o.inPool || (server in old(profiles) && Contains(f, old(profiles)[server], o.hash))
      ensures error.None? ==> profiles == Substituted(f, old(profiles), server, o.hash, e.hash)
      ensures error.None? ==> Swapped(f, old(entries), entries, profiles, o, e)
      ensures error == Some(NotUsed) ==> profiles == old(profiles) && e in entries
      ensures (Registry(entries, profiles), error) == Finishing(f, Registry(old(entries), old(profiles)), o, e.id, e.hash, server, w)
    {
      hide FindId, FindHash, WellFormed, PoolSize, UsedBy, Kept, KeepsUsed, Contains, Committed, Substitute, NewId;
      FoundById(entries, o);
      FoundById(entries, e);
      var found, ok := ReplaceInProfile(server, o.hash, e.hash, w.profileSaved);
      SameIdsKeepUsed(f, entries, entries, profiles);
      if !ok || !w.committed {
        return Some(Disk);
      }
      if server in old(profiles) {
        SubstituteNothing(f, old(profiles)[server], o.hash, e.hash);
      }
      CommittedMeaning(f, entries, o.id, e.id, profiles);
      Commit(o.id, e.id);
      error := if !found && !o.inPool then Some(NotUsed) else None;
    }

    /** A replacement that nothing else interleaves with. */
    method Replace(id: string, server: string, newId: string, w: Weather) returns (r: Result<Entry, ReplaceError>)
      requires Ok() && NewId(entries, newId)
      modifies this
      ensures Ok() && KeepsUsed(f, old(entries), entries, profiles)
      ensures PoolSize(entries) == PoolSize(old(entries))
      ensures r.Success? ==> Replaced(f, old(entries), entries, old(profiles), profiles, id, server, r.value)
      ensures r.Failure? && r.error != Disk ==> profiles == old(profiles)
      ensures r.Failure? && r.error in {NoServer, NotFound, NoNewHash} ==> entries == old(entries)
      ensures r.Failure? && r.error in {Interrupted, Rejected} && w.cleaned && Covered(f, old(entries), profiles) ==>
                NewId(entries, newId)
      ensures r == Failure(NotUsed) && Covered(f, old(entries), profiles) ==>
                exists e :: e in entries && !Visible(f, e, profiles) && server in e.checks
      ensures (Registry(entries, profiles), r) == ReplaceOf(f, Registry(old(entries), old(profiles)), id, server, newId, w)
    {
      hide FindId, FindHash, WellFormed, PoolSize, UsedBy, Kept, KeepsUsed, Ensured, Substituted, Committed, WithCheck,
           Replaced, NewId, Covered, Swapped, Contains, SameIds, Introducing, Finishing;
      SameIdsKeepUsed(f, entries, entries, profiles);
      if server == "" {
        return Failure(NoServer);
      }
      var introduced := Introduce(id, newId, w);
      if introduced.Failure? {
        return Failure(introduced.error);
      }
      var o, e := introduced.value.0, introduced.value.1;
      ghost var registered := entries;
      StillThere(old(entries), entries, o, e);
      var error := Verify(e, server, w, newId);
      KeepsThrough(f, old(entries), registered, entries, profiles);
      if error.Some? {
        return Failure(error.value);
      }
      ghost var checked := entries;
      var check := Check(Valid, w.verdict.at);
      var probed := e.(checks := e.checks[server := check]);
      CheckedMeaning(registered, e, server, check);
      SameUse(f, probed, e, profiles);
      error := Finish(o, probed, server, w);
      SameIdsThrough(old(entries), registered, checked);
      KeepsThrough(f, old(entries), checked, entries, profiles);
      if error.Some? {
        return Failure(error.value);
      }
      ReplacedMeaning(f, old(entries), registered, entries, old(profiles), profiles, id, newId, server, o, e, check);
      r := Success(e);
    }
  }

  // ---------------------------------------------------------------- what a replacement does

  function WithCheck(entries: seq<Entry>, id: string, server: string, check: Check): seq<Entry> {
    var n := FindId(entries, id);
    if n == |entries| then entries else entries[n := entries[n].(checks := entries[n].checks[server := check])]
  }

  function Committed(f: Normalizing, entries: seq<Entry>, id: string, newId: string, profiles: map<string, Profile>)
    : seq<Entry>
  {
    var i, n := FindId(entries, id), FindId(entries, newId);
    if i == |entries| || n == |entries| then entries
    else
      var moved := if entries[i].inPool
                   then entries[i := entries[i].(inPool := false)][n := entries[n].(inPool := true)] else entries;
      if UsedBy(f, entries[i].(inPool := false), profiles) == {} then Dropped(moved, i) else moved
  }

  /** No entry that shows in the list has the hash. */
  ghost predicate IsNew(f: Normalizing, entries: seq<Entry>, profiles: map<string, Profile>, hash: string) {
    forall x :: x in entries && Visible(f, x, profiles) ==> x.hash != hash
  }

  /** Entries and profiles, as one value. */
  datatype Registry = Registry(entries: seq<Entry>, profiles: map<string, Profile>)

  /** Whether a replacement gets to register a new hash: the old entry and the hash. */
  function Introducing(f: Normalizing, s: Registry, id: string, w: Weather): Result<(Entry, string), ReplaceError> {
    var i, hash := FindId(s.entries, id), OneHash(f, VisibleHashes(f, s.entries, s.profiles), w.vk);
    if !w.liveBefore then Failure(Interrupted)
    else if i == |s.entries| || !Visible(f, s.entries[i], s.profiles) then Failure(NotFound)
    else if hash.None? then Failure(NoNewHash)
    else if !w.liveAfterCall then Failure(Interrupted)
    else if !w.registered then Failure(Disk)
    else Success((s.entries[i], hash.value))
  }

  function CleanedUp(f: Normalizing, entries: seq<Entry>, id: string, profiles: map<string, Profile>, saved: bool): seq<Entry> {
    var i := FindId(entries, id);
    if i < |entries| && saved && !Visible(f, entries[i], profiles) then Dropped(entries, i) else entries
  }

  /** What the probe of the new hash comes to. */
  function Judged(w: Weather): Option<ReplaceError> {
    match w.verdict
    case CheckFailed => Some(Rejected)
    case CheckCanceled => Some(Interrupted)
    case Checked(status, _) =>
      if !w.recorded then Some(Disk) else if status != Valid then Some(Rejected)
      else if !w.liveAfterCheck then Some(Interrupted) else None
  }

  function Probed(entries: seq<Entry>, id: string, server: string, w: Weather): seq<Entry> {
    if w.verdict.Checked? && w.recorded then WithCheck(entries, id, server, Check(w.verdict.status, w.verdict.at)) else entries
  }

  function Verifying(f: Normalizing, entries: seq<Entry>, profiles: map<string, Profile>, id: string, server: string, w: Weather)
    : (seq<Entry>, Option<ReplaceError>)
  {
    var probed := Probed(entries, id, server, w);
    (if Judged(w).Some? then CleanedUp(f, probed, id, profiles, w.cleaned) else probed, Judged(w))
  }

  predicate Lists(f: Normalizing, profiles: map<string, Profile>, server: string, hash: string) {
    server in profiles && Contains(f, profiles[server], hash)
  }

  function Finishing(f: Normalizing, s: Registry, o: Entry, id: string, hash: string, server: string, w: Weather)
    : (Registry, Option<ReplaceError>)
  {
    var found := Lists(f, s.profiles, server, o.hash);
    var profiles := Substituted(f, s.profiles, server, o.hash, hash);
    if found && !w.profileSaved then (s, Some(Disk))
    else if !w.committed then (Registry(s.entries, profiles), Some(Disk))
    else (Registry(Committed(f, s.entries, o.id, id, profiles), profiles), if !found && !o.inPool then Some(NotUsed) else None)
  }

  /** A replacement, as a function of the registry and of what happens outside. */
  function ReplaceOf(f: Normalizing, s: Registry, id: string, server: string, newId: string, w: Weather)
    : (Registry, Result<Entry, ReplaceError>)
  {
    if server == "" then (s, Failure(NoServer))
    else
      match Introducing(f, s, id, w)
      case Failure(error) => (s, Failure(error))
      case Success((o, hash)) =>
        var entries := Ensured(s.entries, hash, false, newId);
        var e := entries[FindHash(entries, hash)];
        var (verified, refused) := Verifying(f, entries, s.profiles, e.id, server, w);
        if refused.Some? then (Registry(verified, s.profiles), Failure(refused.value))
        else
          var (end, error) := Finishing(f, Registry(verified, s.profiles), o, e.id, e.hash, server, w);
          (end, if error.Some? then Failure(error.value) else Success(e))
  }

  /** o is the old entry, e the new one: nobody uses e yet. */
  ghost predicate Introduced(f: Normalizing, before: seq<Entry>, after: seq<Entry>, profiles: map<string, Profile>,
                             id: string, newId: string, o: Entry, e: Entry)
  {
    && o in before && o.id == id && Visible(f, o, profiles)
    && SameIds(before, after) && PoolSize(after) == PoolSize(before)
    && after == Ensured(before, e.hash, false, newId)
    && e in after && e.hash != o.hash && e.id != id && !e.inPool && Normal(e.hash)
    && IsNew(f, before, profiles, e.hash)
    && (Covered(f, before, profiles) ==> UsedBy(f, e, profiles) == {})
    && (e.id == newId || NewId(after, newId))
  }

  /** The new entry has the old one's place; the old one is there only for profiles that list it. */
  ghost predicate Swapped(f: Normalizing, before: seq<Entry>, after: seq<Entry>, later: map<string, Profile>,
                          o: Entry, e: Entry)
  {
    && (forall x :: x in after && x.hash == o.hash ==> !x.inPool)
    && e.(inPool := o.inPool) in after
    && (NewId(after, o.id) <==> UsedBy(f, o.(inPool := false), later) == {})
    && (forall x :: x in before && x.id != o.id && x.id != e.id ==> x in after)
  }

  /** A successful replacement, as seen in the registry and in the profiles. */
  ghost predicate Replaced(f: Normalizing, before: seq<Entry>, after: seq<Entry>, profiles: map<string, Profile>,
                           later: map<string, Profile>, id: string, server: string, e: Entry)
  {
    exists o: Entry :: o in before && ReplacedBy(f, before, after, profiles, later, id, server, o, e)
  }

  ghost predicate ReplacedBy(f: Normalizing, before: seq<Entry>, after: seq<Entry>, profiles: map<string, Profile>,
                             later: map<string, Profile>, id: string, server: string, o: Entry, e: Entry)
  {
    && o.id == id && e.id != id && e.hash != o.hash && IsNew(f, before, profiles, e.hash)
    && later == Substituted(f, profiles, server, o.hash, e.hash)
    && (o.inPool || (server in profiles && Contains(f, profiles[server], o.hash)))
    && (forall x :: x in after && x.hash == o.hash ==> !x.inPool)
    && (exists x :: x in after && x.id == e.id && x.hash == e.hash && x.inPool == o.inPool
                     && server in x.checks && x.checks[server].status == Valid)
    && (NewId(after, id) <==> UsedBy(f, o.(inPool := false), later) == {})
    && (forall x :: x in before && x.id != id && x.id != e.id ==> x in after)
  }

  function VisibleHashes(f: Normalizing, entries: seq<Entry>, profiles: map<string, Profile>): (r: seq<string>)
    ensures forall i :: 0 <= i < |entries| && Visible(f, entries[i], profiles) ==> entries[i].hash in r
    ensures forall h :: h in r ==> exists i :: 0 <= i < |entries| && Visible(f, entries[i], profiles) && entries[i].hash == h
  {
    if entries == [] then []
    else
      assert entries == [entries[0]] + entries[1..];
      (if Visible(f, entries[0], profiles) then [entries[0].hash] else []) + VisibleHashes(f, entries[1..], profiles)
  }

  /** Every hash a profile lists has an entry. */
  ghost predicate Covered(f: Normalizing, entries: seq<Entry>, profiles: map<string, Profile>) {
    forall name :: name in profiles ==> CoveredList(f, entries, profiles[name].hashes)
  }

  ghost predicate CoveredList(f: Normalizing, entries: seq<Entry>, hashes: seq<string>) {
    forall k :: 0 <= k < |hashes| && f(hashes[k]).Some? ==> FindHash(entries, f(hashes[k]).value) < |entries|
  }

  ghost predicate SameIds(before: seq<Entry>, after: seq<Entry>) {
    && |before| <= |after|
    && forall k :: 0 <= k < |before| ==> after[k].id == before[k].id && after[k].hash == before[k].hash
  }

  function Substitute(f: Normalizing, hashes: seq<string>, prior: string, successor: string): (r: seq<string>)
    ensures |r| == |hashes|
    ensures forall i :: 0 <= i < |r| ==> r[i] == if f(hashes[i]) == Some(prior) then successor else hashes[i]
  {
    if hashes == [] then []
    else [if f(hashes[0]) == Some(prior) then successor else hashes[0]] + Substitute(f, hashes[1..], prior, successor)
  }

  function Substituted(f: Normalizing, profiles: map<string, Profile>, server: string, prior: string, successor: string)
    : map<string, Profile>
  {
    if server !in profiles then profiles
    else profiles[server := profiles[server].(hashes := Substitute(f, profiles[server].hashes, prior, successor))]
  }

  lemma SubstituteNothing(f: Normalizing, profile: Profile, prior: string, successor: string)
    ensures !Contains(f, profile, prior) ==> Substitute(f, profile.hashes, prior, successor) == profile.hashes
  {
  }

  /** Every hash of the list has an entry. */
  ghost predicate Registered(f: Normalizing, entries: seq<Entry>, hashes: seq<string>) {
    forall k :: 0 <= k < |hashes| ==> f(hashes[k]).Some? && FindHash(entries, f(hashes[k]).value) < |entries|
  }

  /** The entries of a list of hashes that all have one. */
  function Located(f: Normalizing, entries: seq<Entry>, hashes: seq<string>): seq<Entry> {
    if hashes == [] then []
    else
      var before, hash := Located(f, entries, hashes[..|hashes| - 1]), f(hashes[|hashes| - 1]);
      if hash.Some? && FindHash(entries, hash.value) < |entries|
      then before + [entries[FindHash(entries, hash.value)]] else before
  }

  lemma {:induction false} LocatedStays(f: Normalizing, entries: seq<Entry>, more: seq<Entry>, hashes: seq<string>)
    requires entries <= more && Registered(f, entries, hashes)
    ensures Located(f, more, hashes) == Located(f, entries, hashes) && Registered(f, more, hashes)
  {
    if hashes != [] {
      var init, last := hashes[..|hashes| - 1], hashes[|hashes| - 1];
      assert forall k :: 0 <= k < |init| ==> init[k] == hashes[k];
      LocatedStays(f, entries, more, init);
      var i := FindHash(entries, f(last).value);
      assert more[i] == entries[i];
      assert FindHash(more, f(last).value) == i;
      assert hashes == init + [last];
    }
  }

  lemma {:induction false} LocatedMeaning(f: Normalizing, entries: seq<Entry>, hashes: seq<string>)
    requires Registered(f, entries, hashes)
    ensures |Located(f, entries, hashes)| == |hashes|
    ensures forall k :: 0 <= k < |hashes| ==>
              Located(f, entries, hashes)[k] in entries && Some(Located(f, entries, hashes)[k].hash) == f(hashes[k])
  {
    hide FindHash;
    if hashes != [] {
      var init, last := hashes[..|hashes| - 1], hashes[|hashes| - 1];
      assert hashes == init + [last];
      assert forall k :: 0 <= k < |init| ==> init[k] == hashes[k];
      LocatedMeaning(f, entries, init);
      assert Located(f, entries, hashes) == Located(f, entries, init) + [entries[FindHash(entries, f(last).value)]];
    }
  }

  function Chosen(f: Normalizing, entries: seq<Entry>, hashes: seq<string>, mode: Mode): seq<Entry> {
    Unique(Sources(f, entries, hashes, mode))
  }

  ghost predicate Listed(f: Normalizing, hashes: seq<string>, hash: string) {
    exists k :: 0 <= k < |hashes| && f(hashes[k]) == Some(hash)
  }

  /** What the mode asks for: own hashes unless it is pool only, the pool unless it is local only. */
  ghost predicate Eligible(f: Normalizing, hashes: seq<string>, mode: Mode, e: Entry) {
    (mode != Pool && Listed(f, hashes, e.hash)) || (mode != Local && e.inPool)
  }

  function Sources(f: Normalizing, entries: seq<Entry>, hashes: seq<string>, mode: Mode): seq<Entry> {
    (if mode == Pool then [] else Located(f, entries, hashes)) + (if mode == Local then [] else InPool(entries))
  }

  lemma SourcesMeaning(f: Normalizing, entries: seq<Entry>, hashes: seq<string>, mode: Mode, e: Entry)
    requires WellFormed(entries) && Registered(f, entries, hashes)
    ensures e in Sources(f, entries, hashes, mode) <==> e in entries && Eligible(f, hashes, mode, e)
  {
    hide InPool, Located, Registered;
    LocatedMeaning(f, entries, hashes);
    InPoolMeaning(entries);
    var local := Located(f, entries, hashes);
    assert e in Sources(f, entries, hashes, mode) <==> (mode != Pool && e in local) || (mode != Local && e in InPool(entries));
    if e in local {
      var k :| 0 <= k < |local| && local[k] == e;
      assert f(hashes[k]) == Some(e.hash);
    }
    if e in entries && Listed(f, hashes, e.hash) {
      var k :| 0 <= k < |hashes| && f(hashes[k]) == Some(e.hash);
      assert local[k] in entries && local[k].hash == e.hash;
      SameHash(entries, local[k], e);
    }
  }

  lemma SameHash(entries: seq<Entry>, x: Entry, y: Entry)
    requires WellFormed(entries) && x in entries && y in entries
    ensures x.hash == y.hash <==> x == y
    ensures x.id == y.id <==> x == y
  {
  }

  /** Candidates are distinct entries of the registry: all those the mode asks for and no other. */
  lemma ChosenMeaning(f: Normalizing, entries: seq<Entry>, hashes: seq<string>, mode: Mode)
    requires WellFormed(entries) && Registered(f, entries, hashes)
    ensures var r := Chosen(f, entries, hashes, mode);
            && (forall i, j :: 0 <= i < j < |r| ==> r[i].hash != r[j].hash && r[i].id != r[j].id)
            && (forall e :: e in r <==> e in entries && Eligible(f, hashes, mode, e))
  {
    hide FindHash, Located, InPool, Unique, Registered, WellFormed, Eligible;
    var all, r := Sources(f, entries, hashes, mode), Chosen(f, entries, hashes, mode);
    UniqueMeaning(all);
    forall e ensures e in r <==> e in entries && Eligible(f, hashes, mode, e) {
      SourcesMeaning(f, entries, hashes, mode, e);
      if e in all {
        var k :| 0 <= k < |all| && all[k] == e;
        var found := r[FindHash(r, all[k].hash)];
        SourcesMeaning(f, entries, hashes, mode, found);
        SameHash(entries, found, e);
      }
    }
    forall i, j | 0 <= i < j < |r| ensures r[i].id != r[j].id {
      assert r[i] in r && r[j] in r;
      SameHash(entries, r[i], r[j]);
    }
  }

  lemma RegisterNext(f: Normalizing, draft: seq<Entry>, done: seq<string>, raw: string, newId: string)
    requires WellFormed(draft) && NewId(draft, newId) && Registered(f, draft, done)
    requires f(raw).Some? && Normal(f(raw).value)
    ensures var after := Ensured(draft, f(raw).value, false, newId);
            && WellFormed(after) && draft <= after && PoolSize(after) == PoolSize(draft)
            && (after == draft <==> FindHash(draft, f(raw).value) < |draft|)
            && (forall id :: NewId(draft, id) && id != newId ==> NewId(after, id))
            && Registered(f, after, done + [raw]) && FindHash(after, f(raw).value) < |after|
            && Located(f, after, done + [raw]) == Located(f, draft, done) + [after[FindHash(after, f(raw).value)]]
  {
    hide PoolSize;
    var hash := f(raw).value;
    var after := Ensured(draft, hash, false, newId);
    EnsuredKeeps(draft, hash, false, newId);
    PoolOfSum(draft, [Entry(newId, hash, false, map[])]);
    PoolOfOne(Entry(newId, hash, false, map[]));
    LocatedStays(f, draft, after, done);
    assert (done + [raw])[..|done|] == done;
  }

  lemma NothingLocated(f: Normalizing, entries: seq<Entry>)
    ensures Registered(f, entries, []) && Located(f, entries, []) == []
  {
  }

  lemma PoolOfOne(e: Entry)
    ensures PoolSize([e]) == if e.inPool then 1 else 0
  {
  }

  // ---------------------------------------------------------------- lemmas about replacement

  lemma FoundById(entries: seq<Entry>, e: Entry)
    requires WellFormed(entries) && e in entries
    ensures FindId(entries, e.id) < |entries| && entries[FindId(entries, e.id)] == e
  {
    hide FindId;
  }

  lemma DroppedIsGone(entries: seq<Entry>, i: nat)
    requires WellFormed(entries) && i < |entries|
    ensures NewId(Dropped(entries, i), entries[i].id)
  {
  }

  lemma KeepsThrough(f: Normalizing, before: seq<Entry>, middle: seq<Entry>, after: seq<Entry>, profiles: map<string, Profile>)
    requires SameIds(before, middle) && KeepsUsed(f, middle, after, profiles)
    ensures KeepsUsed(f, before, after, profiles)
  {
    forall i | 0 <= i < |before| ensures Kept(after, before[i]) || UsedBy(f, before[i].(inPool := false), profiles) == {} {
      assert middle[i].id == before[i].id && middle[i].hash == before[i].hash;
      SameUse(f, middle[i].(inPool := false), before[i].(inPool := false), profiles);
    }
  }

  lemma SameUse(f: Normalizing, x: Entry, y: Entry, profiles: map<string, Profile>)
    requires x.hash == y.hash && x.inPool == y.inPool
    ensures UsedBy(f, x, profiles) == UsedBy(f, y, profiles)
  {
  }

  /** The hash VK made is new to everything the user can see, so no pool has it. */
  lemma NewHashIsUnused(f: Normalizing, before: seq<Entry>, profiles: map<string, Profile>, id: string, newId: string,
                        hash: string, e: Entry)
    requires Normalizer(f) && WellFormed(before) && NewId(before, newId) && Normal(hash)
    requires FindId(before, id) < |before| && Visible(f, before[FindId(before, id)], profiles)
    requires hash !in Known(f, VisibleHashes(f, before, profiles))
    requires e in Ensured(before, hash, false, newId) && e.hash == hash
    ensures Introduced(f, before, Ensured(before, hash, false, newId), profiles, id, newId, before[FindId(before, id)], e)
  {
    hide FindId, FindHash, VisibleHashes, PoolSize, UsedBy, Known;
    var after, existing := Ensured(before, hash, false, newId), VisibleHashes(f, before, profiles);
    EnsuredKeeps(before, hash, false, newId);
    var o, k := before[FindId(before, id)], FindHash(before, hash);
    forall i | 0 <= i < |before| && Visible(f, before[i], profiles) ensures before[i].hash != hash {
      var m :| 0 <= m < |existing| && existing[m] == before[i].hash;
      assert f(existing[m]) == Some(existing[m]);
    }
    assert o.hash != hash;
    if k < |before| {
      SameHash(after, e, before[k]);
    } else {
      PoolOfSum(before, [Entry(newId, hash, false, map[])]);
      PoolOfOne(Entry(newId, hash, false, map[]));
      SameHash(after, e, Entry(newId, hash, false, map[]));
      if Covered(f, before, profiles) {
        UnlistedIsUnused(f, before, profiles, e);
      }
    }
    SameHash(after, e, after[FindId(before, id)]);
  }

  lemma UnlistedIsUnused(f: Normalizing, entries: seq<Entry>, profiles: map<string, Profile>, e: Entry)
    requires Covered(f, entries, profiles) && FindHash(entries, e.hash) == |entries| && !e.inPool
    ensures UsedBy(f, e, profiles) == {}
  {
    hide FindHash;
    forall name | name in profiles ensures !Uses(f, profiles[name], e) {
      assert CoveredList(f, entries, profiles[name].hashes);
    }
  }

  lemma CheckedMeaning(entries: seq<Entry>, e: Entry, server: string, check: Check)
    requires WellFormed(entries) && e in entries
    ensures var after := WithCheck(entries, e.id, server, check);
            && SameIds(entries, after) && WellFormed(after)
            && FindId(after, e.id) < |after|
            && after[FindId(after, e.id)] == e.(checks := e.checks[server := check])
            && (forall x :: x in entries && x.id != e.id ==> x in after && FindId(after, x.id) < |after| && after[FindId(after, x.id)] == x)
  {
    hide FindId;
    FoundById(entries, e);
    var n, after := FindId(entries, e.id), WithCheck(entries, e.id, server, check);
    FoundById(after, after[n]);
    forall x | x in entries && x.id != e.id
      ensures x in after && FindId(after, x.id) < |after| && after[FindId(after, x.id)] == x
    {
      var k :| 0 <= k < |entries| && entries[k] == x;
      assert after[k] == x;
      FoundById(after, x);
    }
  }

  lemma MovedMeaning(entries: seq<Entry>, i: nat, n: nat, moved: seq<Entry>)
    requires WellFormed(entries) && i < |entries| && n < |entries| && i != n && !entries[n].inPool
    requires moved == if entries[i].inPool
                      then entries[i := entries[i].(inPool := false)][n := entries[n].(inPool := true)] else entries
    ensures SameIds(entries, moved) && WellFormed(moved) && PoolSize(moved) == PoolSize(entries)
    ensures moved[i] == entries[i].(inPool := false) && moved[n] == entries[n].(inPool := entries[i].inPool)
    ensures forall k :: 0 <= k < |entries| && k != i && k != n ==> moved[k] == entries[k]
    ensures |moved| == |entries|
  {
    hide PoolSize;
    var o, e := entries[i].(inPool := false), entries[n].(inPool := entries[i].inPool);
    PoolAt(entries, i, o);
    PoolAt(entries[i := o], n, e);
  }

  lemma CommittedMeaning(f: Normalizing, entries: seq<Entry>, id: string, newId: string, profiles: map<string, Profile>)
    requires WellFormed(entries) && id != newId
    requires FindId(entries, id) < |entries| && FindId(entries, newId) < |entries|
    requires !entries[FindId(entries, newId)].inPool
    ensures var after := Committed(f, entries, id, newId, profiles);
            var o, e := entries[FindId(entries, id)], entries[FindId(entries, newId)];
            && WellFormed(after) && PoolSize(after) == PoolSize(entries) && KeepsUsed(f, entries, after, profiles)
            && (forall x :: x in after && x.hash == o.hash ==> !x.inPool)
            && e.(inPool := o.inPool) in after
            && (NewId(after, id) <==> UsedBy(f, o.(inPool := false), profiles) == {})
            && (forall x :: x in entries && x.id != id && x.id != newId ==> x in after)
  {
    hide FindId, PoolSize, UsedBy, KeepsUsed, Kept, WellFormed;
    var i, n := FindId(entries, id), FindId(entries, newId);
    var moved := if entries[i].inPool
                 then entries[i := entries[i].(inPool := false)][n := entries[n].(inPool := true)] else entries;
    MovedMeaning(entries, i, n, moved);
    SameIdsKeepUsed(f, entries, moved, profiles);
    assert moved[i].id == id;
    NotPooled(moved, i);
    forall x | x in entries && x.id != id && x.id != newId ensures x in moved {
      var k :| 0 <= k < |entries| && entries[k] == x;
      assert moved[k] == x;
    }
    if UsedBy(f, moved[i], profiles) == {} {
      assert moved[i] == moved[i].(inPool := false);
      DropKeeps(f, moved, i, profiles);
      DroppedIsGone(moved, i);
      PoolAt(moved, i, moved[i]);
      KeepsThrough(f, entries, moved, Dropped(moved, i), profiles);
      DroppedHas(moved, i);
    }
  }

  lemma NotPooled(entries: seq<Entry>, i: nat)
    requires WellFormed(entries) && i < |entries| && !entries[i].inPool
    ensures forall x :: x in entries && x.hash == entries[i].hash ==> !x.inPool
  {
    forall x | x in entries && x.hash == entries[i].hash ensures !x.inPool {
      SameHash(entries, x, entries[i]);
    }
  }

  lemma DroppedHas(entries: seq<Entry>, i: nat)
    requires WellFormed(entries) && i < |entries|
    ensures forall x :: x in Dropped(entries, i) <==> x in entries && x.id != entries[i].id
  {
    assert entries == entries[..i] + [entries[i]] + entries[i + 1..];
    forall x | x in entries && x.id != entries[i].id ensures x in Dropped(entries, i) {
      var k :| 0 <= k < |entries| && entries[k] == x;
      assert k < i ==> entries[..i][k] == x;
      assert k > i ==> entries[i + 1..][k - i - 1] == x;
    }
  }

  /** Adding a hash that is not for the pool leaves every entry it finds as it was. */
  lemma StillThere(before: seq<Entry>, after: seq<Entry>, o: Entry, e: Entry)
    requires o in before
    requires exists newId :: after == Ensured(before, e.hash, false, newId)
    ensures o in after
  {
  }

  lemma SameIdsThrough(before: seq<Entry>, middle: seq<Entry>, after: seq<Entry>)
    requires SameIds(before, middle) && SameIds(middle, after)
    ensures SameIds(before, after)
  {
    forall k | 0 <= k < |before| ensures after[k].id == before[k].id && after[k].hash == before[k].hash {
      assert middle[k].id == before[k].id && middle[k].hash == before[k].hash;
    }
  }

  lemma ReplacedMeaning(f: Normalizing, before: seq<Entry>, registered: seq<Entry>, after: seq<Entry>,
                        profiles: map<string, Profile>, later: map<string, Profile>, id: string, newId: string,
                        server: string, o: Entry, e: Entry, check: Check)
    requires Introduced(f, before, registered, profiles, id, newId, o, e) && WellFormed(registered) && check.status == Valid
    requires later == Substituted(f, profiles, server, o.hash, e.hash)
    requires o.inPool || (server in profiles && Contains(f, profiles[server], o.hash))
    requires Swapped(f, WithCheck(registered, e.id, server, check), after, later, o, e.(checks := e.checks[server := check]))
    ensures Replaced(f, before, after, profiles, later, id, server, e)
  {
    hide FindId, FindHash, UsedBy, PoolSize, Substituted, Contains, WithCheck, WellFormed, Ensured, NewId;
    CheckedMeaning(registered, e, server, check);
    var probed := e.(checks := e.checks[server := check]);
    var placed := probed.(inPool := o.inPool);
    assert placed in after && placed.id == e.id && placed.hash == e.hash;
    forall x | x in before && x.id != id && x.id != e.id ensures x in after {
      StillThere(before, registered, x, e);
    }
    assert ReplacedBy(f, before, after, profiles, later, id, server, o, e);
  }

  /** After a replacement the list is as long as before and the old hash is nowhere in it. */
  lemma NoOldHashLeft(f: Normalizing, profiles: map<string, Profile>, server: string, prior: string, successor: string)
    requires Normalizer(f) && Normal(successor) && successor != prior && server in profiles
    ensures var later := Substituted(f, profiles, server, prior, successor);
            && later.Keys == profiles.Keys
            && |later[server].hashes| == |profiles[server].hashes|
            && !Contains(f, later[server], prior)
            && (Contains(f, profiles[server], prior) ==> Contains(f, later[server], successor))
            && (forall h :: h != prior && Contains(f, profiles[server], h) ==> Contains(f, later[server], h))
            && (forall name :: name in profiles && name != server ==> later[name] == profiles[name])
  {
    hide Substitute;
    var before, after := profiles[server].hashes, Substituted(f, profiles, server, prior, successor)[server].hashes;
    forall h | Contains(f, profiles[server], h)
      ensures Contains(f, Profile(after, profiles[server].mode), if h == prior then successor else h)
    {
      var i :| 0 <= i < |before| && f(before[i]) == Some(h);
      assert f(after[i]) == Some(if h == prior then successor else h);
    }
  }
}
