/**
 When a replacement of a VK hash leaves something behind (backend/vk_hash_manager.go,
 replaceVKHashWithContext): an entry that nobody uses, or an old hash that no longer shows.
 */
module HashReplacement {
  import opened HashRegistry
  import opened VkHash
  import opened Wrappers

  // ---------------------------------------------------------------- where an id is

  /** The hash of an entry and whether it is in the pool. */
  function Place(entries: seq<Entry>, id: string): Option<(string, bool)> {
    var i := FindId(entries, id);
    if i < |entries| then Some((entries[i].hash, entries[i].inPool)) else None
  }

  ghost predicate Unlisted(f: Normalizing, profiles: map<string, Profile>, hash: string) {
    forall name :: name in profiles ==> !Contains(f, profiles[name], hash)
  }

  /** The entry with this id is in no pool and no profile lists its hash. */
  ghost predicate Orphan(f: Normalizing, s: Registry, id: string) {
    exists e :: e in s.entries && e.id == id && !Visible(f, e, s.profiles)
  }

  lemma UnusedIsUnlisted(f: Normalizing, e: Entry, profiles: map<string, Profile>)
    ensures Visible(f, e, profiles) <==> e.inPool || !Unlisted(f, profiles, e.hash)
  {
    if !e.inPool && !Unlisted(f, profiles, e.hash) {
      var name :| name in profiles && Contains(f, profiles[name], e.hash);
      assert name in UsedBy(f, e, profiles);
    }
    if !e.inPool && UsedBy(f, e, profiles) != {} {
      var name :| name in UsedBy(f, e, profiles);
      assert Contains(f, profiles[name], e.hash);
    }
  }

  lemma OrphanByPlace(f: Normalizing, s: Registry, id: string)
    requires WellFormed(s.entries)
    ensures Orphan(f, s, id) <==>
              Place(s.entries, id).Some? && !Place(s.entries, id).value.1 && Unlisted(f, s.profiles, Place(s.entries, id).value.0)
  {
    hide FindId, Visible, Unlisted, WellFormed;
    var i := FindId(s.entries, id);
    if i < |s.entries| {
      UnusedIsUnlisted(f, s.entries[i], s.profiles);
    }
    forall e | e in s.entries && e.id == id ensures i < |s.entries| && s.entries[i] == e {
      FoundById(s.entries, e);
    }
  }

  lemma PlaceOf(entries: seq<Entry>, e: Entry)
    requires WellFormed(entries) && e in entries
    ensures Place(entries, e.id) == Some((e.hash, e.inPool))
  {
    hide FindId, WellFormed;
    FoundById(entries, e);
  }

  lemma NoPlace(entries: seq<Entry>, id: string)
    ensures Place(entries, id).None? <==> NewId(entries, id)
  {
    hide FindId;
  }

  lemma PlaceAfterEnsured(entries: seq<Entry>, hash: string, newId: string)
    requires WellFormed(entries) && Normal(hash) && NewId(entries, newId)
    ensures var after := Ensured(entries, hash, false, newId);
            && WellFormed(after)
            && Place(after, newId) == (if FindHash(entries, hash) == |entries| then Some((hash, false)) else None)
            && (FindHash(entries, hash) == |entries| <==> after[FindHash(after, hash)].id == newId)
  {
    hide FindId, FindHash;
    var after := Ensured(entries, hash, false, newId);
    EnsuredKeeps(entries, hash, false, newId);
    if FindHash(entries, hash) == |entries| {
      var e := Entry(newId, hash, false, map[]);
      assert after[|entries|] == e;
      PlaceOf(after, e);
      SameHash(after, after[FindHash(after, hash)], e);
    } else {
      NoPlace(after, newId);
    }
  }

  lemma PlaceAfterProbe(entries: seq<Entry>, id: string, server: string, w: Weather, other: string)
    requires WellFormed(entries)
    ensures WellFormed(Probed(entries, id, server, w))
    ensures Place(Probed(entries, id, server, w), other) == Place(entries, other)
  {
    hide WellFormed;
    if w.verdict.Checked? && FindId(entries, id) < |entries| {
      var check := Check(w.verdict.status, w.verdict.at);
      CheckedMeaning(entries, entries[FindId(entries, id)], server, check);
      SameIdsSamePlaces(entries, WithCheck(entries, id, server, check), other);
    }
  }

  lemma {:induction false} SameIdsSamePlaces(before: seq<Entry>, after: seq<Entry>, id: string)
    requires |before| == |after|
    requires forall k :: 0 <= k < |before| ==> after[k].id == before[k].id && after[k].hash == before[k].hash && after[k].inPool == before[k].inPool
    ensures Place(after, id) == Place(before, id)
  {
    hide FindId;
    var i, j := FindId(before, id), FindId(after, id);
    assert i < |before| ==> after[i].id == id;
    assert j < |after| ==> before[j].id == id;
  }

  lemma DroppedIsWellFormed(entries: seq<Entry>, i: nat)
    requires WellFormed(entries) && i < |entries|
    ensures WellFormed(Dropped(entries, i))
  {
  }

  lemma PlaceAfterCleanup(f: Normalizing, entries: seq<Entry>, id: string, profiles: map<string, Profile>, saved: bool, other: string)
    requires WellFormed(entries)
    ensures var after := CleanedUp(f, entries, id, profiles, saved);
            && WellFormed(after)
            && Place(after, other)
            == (if other == id && saved && Orphan(f, Registry(entries, profiles), id) then None else Place(entries, other))
  {
    hide FindId, Visible;
    var i, after := FindId(entries, id), CleanedUp(f, entries, id, profiles, saved);
    if i < |entries| {
      forall e | e in entries && e.id == id ensures e == entries[i] {
        FoundById(entries, e);
      }
      if saved && !Visible(f, entries[i], profiles) {
        DroppedIsWellFormed(entries, i);
        DroppedHas(entries, i);
        NoPlace(after, other);
        NoPlace(entries, other);
        if other != id && FindId(entries, other) < |entries| {
          PlaceOf(after, entries[FindId(entries, other)]);
        } else {
          assert NewId(after, other);
        }
      }
    }
  }

  lemma PlaceAfterCommit(f: Normalizing, entries: seq<Entry>, o: Entry, e: Entry, profiles: map<string, Profile>, other: string)
    requires WellFormed(entries) && o in entries && e in entries && o.id != e.id && !e.inPool
    ensures var after := Committed(f, entries, o.id, e.id, profiles);
            && WellFormed(after) && Place(after, e.id) == Some((e.hash, o.inPool))
            && (NewId(entries, other) ==> Place(after, other) == None)
  {
    hide FindId, PoolSize, KeepsUsed, UsedBy, WellFormed;
    FoundById(entries, o);
    FoundById(entries, e);
    CommittedMeaning(f, entries, o.id, e.id, profiles);
    var after := Committed(f, entries, o.id, e.id, profiles);
    PlaceOf(after, e.(inPool := o.inPool));
    NoPlace(after, other);
  }

  lemma UnlistedAfter(f: Normalizing, profiles: map<string, Profile>, server: string, prior: string, hash: string)
    requires Normalizer(f) && Normal(hash) && hash != prior
    ensures Unlisted(f, Substituted(f, profiles, server, prior, hash), hash)
            <==> !Lists(f, profiles, server, prior) && Unlisted(f, profiles, hash)
  {
    hide Contains, Substitute;
    var later := Substituted(f, profiles, server, prior, hash);
    if server in profiles {
      NoOldHashLeft(f, profiles, server, prior, hash);
      SubstituteNothing(f, profiles[server], prior, hash);
      assert later.Keys == profiles.Keys;
      assert !Lists(f, profiles, server, prior) ==> later == profiles;
      assert Lists(f, profiles, server, prior) ==> Contains(f, later[server], hash);
    }
  }

  // ---------------------------------------------------------------- an entry nobody uses

  lemma IntroducedFacts(f: Normalizing, s: Registry, id: string, newId: string, w: Weather)
    requires Normalizer(f) && WellFormed(s.entries) && NewId(s.entries, newId) && Introducing(f, s, id, w).Success?
    ensures var (o, hash) := Introducing(f, s, id, w).value;
            var after := Ensured(s.entries, hash, false, newId);
            var e := after[FindHash(after, hash)];
            && Normal(hash) && WellFormed(after) && e.hash == hash && o in s.entries && o in after && o.id == id
            && Introduced(f, s.entries, after, s.profiles, id, newId, o, e)
  {
    hide FindId, FindHash, UsedBy, VisibleHashes, PoolSize, Introduced;
    var (o, hash) := Introducing(f, s, id, w).value;
    var after := Ensured(s.entries, hash, false, newId);
    NewIsUnknown(f, VisibleHashes(f, s.entries, s.profiles), w.vk);
    EnsuredKeeps(s.entries, hash, false, newId);
    NewHashIsUnused(f, s.entries, s.profiles, id, newId, hash, after[FindHash(after, hash)]);
    assert Introduced(f, s.entries, after, s.profiles, id, newId, o, after[FindHash(after, hash)]);
    StillThere(s.entries, after, o, after[FindHash(after, hash)]);
  }

  /**
   When a replacement leaves the entry it made in no pool and listed by nobody, said before the call:
   VK's hash is new to the registry and to the profiles, and then the probe fails and the entry cannot
   be cleaned up; or the server lists the old hash and cannot be saved; or it does not list it, and the
   registry cannot be saved or the old hash is not in the pool.
   */
  ghost predicate LeavesOrphan(f: Normalizing, s: Registry, id: string, server: string, w: Weather) {
    && server != "" && Introducing(f, s, id, w).Success?
    && var (o, hash) := Introducing(f, s, id, w).value;
       && FindHash(s.entries, hash) == |s.entries| && Unlisted(f, s.profiles, hash)
       && if Judged(w).Some? then !w.cleaned
          else if Lists(f, s.profiles, server, o.hash) then !w.profileSaved
          else !w.committed || !o.inPool
  }

  /** A replacement leaves an entry behind that nobody uses exactly then. */
  lemma OrphanLeftExactly(f: Normalizing, s: Registry, id: string, server: string, newId: string, w: Weather)
    requires Normalizer(f) && WellFormed(s.entries) && NewId(s.entries, newId)
    ensures Orphan(f, ReplaceOf(f, s, id, server, newId, w).0, newId) <==> LeavesOrphan(f, s, id, server, w)
  {
    hide FindId, FindHash, Place, Orphan, Unlisted, WellFormed, Ensured, Committed, Probed, CleanedUp, Substituted, Introducing, Lists,
         Introduced, NewId, Visible;
    if server == "" || Introducing(f, s, id, w).Failure? {
      NoPlace(s.entries, newId);
      OrphanByPlace(f, s, newId);
    } else {
      OrphanAfterIntroducing(f, s, id, server, newId, w);
    }
  }

  lemma OrphanAfterIntroducing(f: Normalizing, s: Registry, id: string, server: string, newId: string, w: Weather)
    requires Normalizer(f) && WellFormed(s.entries) && NewId(s.entries, newId)
    requires server != "" && Introducing(f, s, id, w).Success?
    ensures Orphan(f, ReplaceOf(f, s, id, server, newId, w).0, newId) <==> LeavesOrphan(f, s, id, server, w)
  {
    hide FindId, FindHash, Place, Orphan, Unlisted, WellFormed, Ensured, Committed, Probed, CleanedUp, Substituted, Introducing, Lists,
         NewId, Visible, SameIds, PoolSize, IsNew, Covered, UsedBy;
    var (o, hash) := Introducing(f, s, id, w).value;
    var entries := Ensured(s.entries, hash, false, newId);
    var e := entries[FindHash(entries, hash)];
    IntroducedFacts(f, s, id, newId, w);
    PlaceAfterEnsured(s.entries, hash, newId);
    PlaceAfterProbe(entries, e.id, server, w, newId);
    var probed := Probed(entries, e.id, server, w);
    OrphanByPlace(f, Registry(probed, s.profiles), newId);
    var end := ReplaceOf(f, s, id, server, newId, w).0;
    if Judged(w).Some? {
      PlaceAfterCleanup(f, probed, e.id, s.profiles, w.cleaned, newId);
      OrphanByPlace(f, end, newId);
    } else {
      UnlistedAfter(f, s.profiles, server, o.hash, hash);
      if (Lists(f, s.profiles, server, o.hash) && !w.profileSaved) || !w.committed {
        OrphanByPlace(f, end, newId);
      } else {
        CommittedPlace(f, entries, o, e, server, w, end.profiles, newId);
        OrphanByPlace(f, end, newId);
      }
    }
  }

  lemma CommittedPlace(f: Normalizing, entries: seq<Entry>, o: Entry, e: Entry, server: string, w: Weather,
                       profiles: map<string, Profile>, newId: string)
    requires WellFormed(entries) && o in entries && e in entries && o.id != e.id && !e.inPool && Judged(w).None?
    requires e.id == newId || NewId(entries, newId)
    ensures var after := Committed(f, Probed(entries, e.id, server, w), o.id, e.id, profiles);
            && WellFormed(after)
            && Place(after, newId) == if e.id == newId then Some((e.hash, o.inPool)) else None
  {
    hide FindId, WellFormed, Committed, WithCheck, Place;
    var check := Check(w.verdict.status, w.verdict.at);
    CheckedMeaning(entries, e, server, check);
    var probed := Probed(entries, e.id, server, w);
    var tested := e.(checks := e.checks[server := check]);
    assert tested in probed && o in probed;
    NoPlace(entries, newId);
    NoPlace(probed, newId);
    PlaceAfterProbe(entries, e.id, server, w, newId);
    PlaceAfterCommit(f, probed, o, tested, profiles, newId);
  }

  /** Everything outside goes well. */
  function AllWell(vk: Vk): Weather {
    Weather(true, vk, true, true, Checked(Valid, 1), true, true, true, true, true)
  }

  /** The registry in which server "a" lists the only hash, and "b" lists nothing. */
  function TwoServers(h: string): Registry {
    Registry([Entry("1", h, false, map[])], map["a" := Profile([h], Local), "b" := Profile([], Local)])
  }

  lemma TwoServersIntroduce(f: Normalizing, h: string, g: string, w: Weather)
    requires Normalizer(f) && Normal(h) && Normal(g) && h != g
    requires w.liveBefore && w.vk == Repeating(g) && w.liveAfterCall && w.registered
    ensures var s := TwoServers(h);
            && WellFormed(s.entries) && NewId(s.entries, "2")
            && Introducing(f, s, "1", w) == Success((s.entries[0], g))
            && FindHash(s.entries, g) == |s.entries| && Unlisted(f, s.profiles, g)
            && Lists(f, s.profiles, "a", h) && !Lists(f, s.profiles, "b", h)
  {
    hide OneHash;
    var s := TwoServers(h);
    var e := s.entries[0];
    assert f(s.profiles["a"].hashes[0]) == Some(h);
    assert "a" in UsedBy(f, e, s.profiles);
    assert FindId(s.entries, "1") == 0;
    var existing := VisibleHashes(f, s.entries, s.profiles);
    forall x | x in Known(f, existing) ensures x == h {
      var i :| 0 <= i < |existing| && f(existing[i]) == Some(x);
      assert existing[i] in existing;
    }
    GenerableExactly(f, existing, g);
  }

  ghost predicate LeftBy(f: Normalizing, h: string, server: string, w: Weather, error: ReplaceError) {
    var (s, r) := ReplaceOf(f, TwoServers(h), "1", server, "2", w);
    r == Failure(error) && Orphan(f, s, "2")
  }

  /** Three inputs that leave an orphan: a server that does not list the hash, a profile that cannot be
      saved, and a rejected hash that cannot be cleaned up. */
  lemma OrphansLeft(f: Normalizing, h: string, g: string)
    requires Normalizer(f) && Normal(h) && Normal(g) && h != g
    ensures LeftBy(f, h, "b", AllWell(Repeating(g)), NotUsed)
    ensures LeftBy(f, h, "a", AllWell(Repeating(g)).(profileSaved := false), Disk)
    ensures LeftBy(f, h, "a", AllWell(Repeating(g)).(verdict := Checked(Invalid, 1), cleaned := false), Rejected)
  {
    hide Introducing, Orphan, WellFormed, NewId, FindHash, Lists, Unlisted;
    var s, w := TwoServers(h), AllWell(Repeating(g));
    var w2, w3 := w.(profileSaved := false), w.(verdict := Checked(Invalid, 1), cleaned := false);
    TwoServersIntroduce(f, h, g, w);
    TwoServersIntroduce(f, h, g, w2);
    TwoServersIntroduce(f, h, g, w3);
    OrphanLeftExactly(f, s, "1", "b", "2", w);
    OrphanLeftExactly(f, s, "1", "a", "2", w2);
    OrphanLeftExactly(f, s, "1", "a", "2", w3);
  }

  // ---------------------------------------------------------------- when it succeeds

  /** The shown entry that is to be replaced. */
  ghost predicate Replaceable(f: Normalizing, s: Registry, id: string, o: Entry) {
    o in s.entries && o.id == id && Visible(f, o, s.profiles)
  }

  lemma ReplaceableFound(f: Normalizing, s: Registry, id: string, o: Entry)
    requires WellFormed(s.entries) && Replaceable(f, s, id, o)
    ensures FindId(s.entries, id) < |s.entries| && s.entries[FindId(s.entries, id)] == o
  {
    hide FindId, Visible, WellFormed;
    FoundById(s.entries, o);
  }

  /** What ends a replacement before the new hash has a place: nothing is tried after the first of these. */
  lemma StartFails(f: Normalizing, s: Registry, id: string, server: string, newId: string, w: Weather)
    requires WellFormed(s.entries)
    ensures var r := ReplaceOf(f, s, id, server, newId, w).1;
            && (r == Failure(NoServer) <==> server == "")
            && (r == Failure(NotFound) <==> server != "" && w.liveBefore && forall o :: !Replaceable(f, s, id, o))
            && (r == Failure(NoNewHash) <==>
                 && server != "" && w.liveBefore && (exists o :: Replaceable(f, s, id, o))
                 && OneHash(f, VisibleHashes(f, s.entries, s.profiles), w.vk) == None)
  {
    hide FindHash, Ensured, Committed, Probed, CleanedUp, Substituted, Visible, Lists, OneHash, VisibleHashes, WellFormed;
    var i := FindId(s.entries, id);
    if i < |s.entries| && Visible(f, s.entries[i], s.profiles) {
      assert Replaceable(f, s, id, s.entries[i]);
    }
    forall o | Replaceable(f, s, id, o) ensures i < |s.entries| && s.entries[i] == o {
      ReplaceableFound(f, s, id, o);
    }
  }

  /** With an entry to replace and a new hash from VK, the rest decides, in this order. */
  lemma ResultExactly(f: Normalizing, s: Registry, id: string, server: string, newId: string, w: Weather, o: Entry, hash: string)
    requires Normalizer(f) && WellFormed(s.entries) && NewId(s.entries, newId) && server != "" && w.liveBefore
    requires Replaceable(f, s, id, o) && OneHash(f, VisibleHashes(f, s.entries, s.profiles), w.vk) == Some(hash)
    ensures var r := ReplaceOf(f, s, id, server, newId, w).1;
            if !w.liveAfterCall then r == Failure(Interrupted)
            else if !w.registered then r == Failure(Disk)
            else if w.verdict.CheckFailed? then r == Failure(Rejected)
            else if w.verdict.CheckCanceled? then r == Failure(Interrupted)
            else if !w.recorded then r == Failure(Disk)
            else if w.verdict.status != Valid then r == Failure(Rejected)
            else if !w.liveAfterCheck then r == Failure(Interrupted)
            else if Lists(f, s.profiles, server, o.hash) && !w.profileSaved then r == Failure(Disk)
            else if !w.committed then r == Failure(Disk)
            else if !Lists(f, s.profiles, server, o.hash) && !o.inPool then r == Failure(NotUsed)
            else r.Success? && r.value.hash == hash
  {
    hide FindId, FindHash, Ensured, Committed, Probed, CleanedUp, Substituted, Visible, Lists, OneHash, VisibleHashes, WellFormed, NewId;
    ReplaceableFound(f, s, id, o);
    if Introducing(f, s, id, w).Success? {
      IntroducedFacts(f, s, id, newId, w);
    }
  }

  // ---------------------------------------------------------------- hashes without an entry

  lemma KnownAreShown(f: Normalizing, entries: seq<Entry>, profiles: map<string, Profile>, h: string)
    requires Normalizer(f) && WellFormed(entries)
    ensures h in Known(f, VisibleHashes(f, entries, profiles)) <==> !IsNew(f, entries, profiles, h)
  {
    hide VisibleHashes, Visible;
    var existing := VisibleHashes(f, entries, profiles);
    if h in Known(f, existing) {
      var i :| 0 <= i < |existing| && f(existing[i]) == Some(h);
      assert existing[i] in existing;
    }
    if !IsNew(f, entries, profiles, h) {
      var x :| x in entries && Visible(f, x, profiles) && x.hash == h;
      var k :| 0 <= k < |entries| && entries[k] == x;
      assert h in existing;
      var i :| 0 <= i < |existing| && existing[i] == h;
      assert f(existing[i]) == Some(h);
    }
  }

  /** Generation can return a hash that a profile lists exactly when the hash has no entry. */
  lemma ListedIsGeneratedExactly(f: Normalizing, s: Registry, name: string, h: string)
    requires Normalizer(f) && WellFormed(s.entries) && Normal(h) && Lists(f, s.profiles, name, h)
    ensures (exists vk :: OneHash(f, VisibleHashes(f, s.entries, s.profiles), vk) == Some(h))
            <==> FindHash(s.entries, h) == |s.entries|
  {
    hide VisibleHashes, Known, OneHash, FindHash;
    GenerableExactly(f, VisibleHashes(f, s.entries, s.profiles), h);
    KnownAreShown(f, s.entries, s.profiles, h);
    ListedEntryShows(f, s, name, h);
  }

  lemma ListedEntryShows(f: Normalizing, s: Registry, name: string, h: string)
    ensures Lists(f, s.profiles, name, h) && FindHash(s.entries, h) < |s.entries| ==> !IsNew(f, s.entries, s.profiles, h)
  {
    hide FindHash;
    var k := FindHash(s.entries, h);
    if Lists(f, s.profiles, name, h) && k < |s.entries| {
      assert name in UsedBy(f, s.entries[k], s.profiles);
    }
  }

  lemma CoveredHasEntry(f: Normalizing, s: Registry, name: string, h: string)
    requires Covered(f, s.entries, s.profiles)
    ensures Lists(f, s.profiles, name, h) ==> FindHash(s.entries, h) < |s.entries|
  {
    hide FindHash;
    if Lists(f, s.profiles, name, h) {
      assert CoveredList(f, s.entries, s.profiles[name].hashes);
    }
  }

  /** Whatever VK answers, a new hash is listed by no profile, exactly when every listed hash has an entry. */
  lemma CoveredExactly(f: Normalizing, s: Registry)
    requires Normalizer(f) && WellFormed(s.entries)
    ensures Covered(f, s.entries, s.profiles) <==>
              forall vk, name, h :: OneHash(f, VisibleHashes(f, s.entries, s.profiles), vk) == Some(h) ==>
                !Lists(f, s.profiles, name, h)
  {
    hide VisibleHashes, OneHash, FindHash;
    var existing := VisibleHashes(f, s.entries, s.profiles);
    forall vk, name, h | Covered(f, s.entries, s.profiles) && OneHash(f, existing, vk) == Some(h)
      ensures !Lists(f, s.profiles, name, h)
    {
      NewIsUnknown(f, existing, vk);
      CoveredHasEntry(f, s, name, h);
      KnownAreShown(f, s.entries, s.profiles, h);
      ListedEntryShows(f, s, name, h);
    }
    if !Covered(f, s.entries, s.profiles) {
      var name :| name in s.profiles && !CoveredList(f, s.entries, s.profiles[name].hashes);
      var list := s.profiles[name].hashes;
      var k :| 0 <= k < |list| && f(list[k]).Some? && FindHash(s.entries, f(list[k]).value) == |s.entries|;
      var h := f(list[k]).value;
      assert Lists(f, s.profiles, name, h);
      ListedIsGeneratedExactly(f, s, name, h);
    }
  }

  // ---------------------------------------------------------------- hashes that no longer show

  /** The entry shows in the list, in the pool or used by a profile. */
  ghost predicate Shows(f: Normalizing, s: Registry, id: string, hash: string) {
    exists x :: x in s.entries && x.id == id && x.hash == hash && Visible(f, x, s.profiles)
  }

  ghost predicate OnlyListedBy(f: Normalizing, profiles: map<string, Profile>, server: string, hash: string) {
    forall name :: name in profiles && Contains(f, profiles[name], hash) ==> name == server
  }

  /**
   When a failed replacement leaves the old hash listed by nobody, said before the call: the server
   alone lists it, it is not in the pool, the new hash is valid, and the profile can be saved but the
   registry cannot.
   */
  ghost predicate Forgets(f: Normalizing, s: Registry, id: string, server: string, w: Weather) {
    && server != "" && Introducing(f, s, id, w).Success? && Judged(w).None? && w.profileSaved && !w.committed
    && var o := Introducing(f, s, id, w).value.0;
       Lists(f, s.profiles, server, o.hash) && OnlyListedBy(f, s.profiles, server, o.hash) && !o.inPool
  }

  lemma ShowsByPlace(f: Normalizing, s: Registry, id: string, hash: string)
    requires WellFormed(s.entries) && Place(s.entries, id).Some? && Place(s.entries, id).value.0 == hash
    ensures Shows(f, s, id, hash) <==> Place(s.entries, id).value.1 || !Unlisted(f, s.profiles, hash)
  {
    hide FindId, Visible, Unlisted, WellFormed;
    var i := FindId(s.entries, id);
    UnusedIsUnlisted(f, s.entries[i], s.profiles);
    forall x | x in s.entries && x.id == id ensures x == s.entries[i] {
      FoundById(s.entries, x);
    }
  }

  lemma PlaceStaysEnsured(entries: seq<Entry>, hash: string, newId: string, c: Entry)
    requires WellFormed(entries) && Normal(hash) && NewId(entries, newId) && c in entries
    ensures Place(Ensured(entries, hash, false, newId), c.id) == Some((c.hash, c.inPool))
  {
    hide FindHash, Place, WellFormed;
    var after := Ensured(entries, hash, false, newId);
    EnsuredKeeps(entries, hash, false, newId);
    assert c in after;
    PlaceOf(after, c);
  }

  lemma OthersListed(f: Normalizing, profiles: map<string, Profile>, server: string, prior: string, hash: string, other: string)
    requires Normalizer(f) && Normal(hash) && hash != prior && other != hash
    ensures Unlisted(f, Substituted(f, profiles, server, prior, hash), other)
            <==> if other == prior then OnlyListedBy(f, profiles, server, prior) else Unlisted(f, profiles, other)
  {
    hide Contains, Substitute;
    var later := Substituted(f, profiles, server, prior, hash);
    if server in profiles {
      NoOldHashLeft(f, profiles, server, prior, hash);
      assert later.Keys == profiles.Keys;
      if Contains(f, later[server], other) {
        NothingElseAdded(f, profiles[server], later[server], prior, hash, other);
      }
      forall name | name in profiles && name != server ensures later[name] == profiles[name] {
      }
      assert other != prior && Contains(f, profiles[server], other) ==> Contains(f, later[server], other);
    }
  }

  lemma NothingElseAdded(f: Normalizing, before: Profile, after: Profile, prior: string, hash: string, other: string)
    requires Normalizer(f) && Normal(hash) && other != hash
    requires after == before.(hashes := Substitute(f, before.hashes, prior, hash)) && Contains(f, after, other)
    ensures Contains(f, before, other)
  {
    hide Substitute;
    var i :| 0 <= i < |after.hashes| && f(after.hashes[i]) == Some(other);
    assert f(before.hashes[i]) == Some(other);
  }

  /** Every entry that shows before a failed replacement shows after it, but for the old one exactly then. */
  lemma ShowsExactly(f: Normalizing, s: Registry, id: string, server: string, newId: string, w: Weather, c: Entry)
    requires Normalizer(f) && WellFormed(s.entries) && NewId(s.entries, newId)
    requires c in s.entries && Visible(f, c, s.profiles) && ReplaceOf(f, s, id, server, newId, w).1.Failure?
    ensures var end := ReplaceOf(f, s, id, server, newId, w).0;
            Shows(f, end, c.id, c.hash) <==> !(c.id == id && Forgets(f, s, id, server, w))
  {
    hide FindId, FindHash, Place, Unlisted, WellFormed, Ensured, Committed, Probed, CleanedUp, Substituted, Introducing, Lists,
         NewId, Visible, OnlyListedBy;
    if server == "" || Introducing(f, s, id, w).Failure? {
      assert Shows(f, s, c.id, c.hash);
    } else {
      ShowsAfterIntroducing(f, s, id, server, newId, w, c);
    }
  }

  lemma ShowsAfterIntroducing(f: Normalizing, s: Registry, id: string, server: string, newId: string, w: Weather, c: Entry)
    requires Normalizer(f) && WellFormed(s.entries) && NewId(s.entries, newId)
    requires server != "" && Introducing(f, s, id, w).Success?
    requires c in s.entries && Visible(f, c, s.profiles) && ReplaceOf(f, s, id, server, newId, w).1.Failure?
    ensures var end := ReplaceOf(f, s, id, server, newId, w).0;
            Shows(f, end, c.id, c.hash) <==> !(c.id == id && Forgets(f, s, id, server, w))
  {
    hide FindId, FindHash, Place, Unlisted, WellFormed, Ensured, Committed, Probed, CleanedUp, Substituted, Introducing, Lists,
         NewId, Visible, OnlyListedBy, SameIds, PoolSize, Covered, UsedBy;
    var (o, hash) := Introducing(f, s, id, w).value;
    var entries := Ensured(s.entries, hash, false, newId);
    var e := entries[FindHash(entries, hash)];
    IntroducedFacts(f, s, id, newId, w);
    PlaceStaysEnsured(s.entries, hash, newId, c);
    StillThere(s.entries, entries, c, e);
    SameHash(entries, c, e);
    SameHash(s.entries, c, o);
    UnusedIsUnlisted(f, c, s.profiles);
    PlaceAfterProbe(entries, e.id, server, w, c.id);
    var probed := Probed(entries, e.id, server, w);
    var end := ReplaceOf(f, s, id, server, newId, w).0;
    if Judged(w).Some? {
      PlaceAfterCleanup(f, probed, e.id, s.profiles, w.cleaned, c.id);
    } else {
      OthersListed(f, s.profiles, server, o.hash, hash, c.hash);
      UnlistedServer(f, s.profiles, server, o.hash, hash);
      if !(Lists(f, s.profiles, server, o.hash) && !w.profileSaved) && w.committed {
        NothingCommitted(f, entries, o, e, server, w, s.profiles);
      }
    }
    ShowsByPlace(f, end, c.id, c.hash);
  }

  lemma UnlistedServer(f: Normalizing, profiles: map<string, Profile>, server: string, prior: string, hash: string)
    ensures !Lists(f, profiles, server, prior) ==> Substituted(f, profiles, server, prior, hash) == profiles
    ensures Lists(f, profiles, server, prior) ==> !Unlisted(f, profiles, prior)
  {
    hide Contains, Substitute;
    if server in profiles {
      SubstituteNothing(f, profiles[server], prior, hash);
    }
  }

  /** Committing changes nothing when the old hash is used by others and not in the pool. */
  lemma NothingCommitted(f: Normalizing, entries: seq<Entry>, o: Entry, e: Entry, server: string, w: Weather,
                         profiles: map<string, Profile>)
    requires WellFormed(entries) && o in entries && e in entries && o.id != e.id && Judged(w).None?
    requires Visible(f, o, profiles)
    ensures !o.inPool ==> Committed(f, Probed(entries, e.id, server, w), o.id, e.id, profiles) == Probed(entries, e.id, server, w)
  {
    hide FindId, WellFormed, WithCheck, UsedBy;
    var check := Check(w.verdict.status, w.verdict.at);
    CheckedMeaning(entries, e, server, check);
    var probed := Probed(entries, e.id, server, w);
    assert probed[FindId(probed, o.id)] == o;
    assert o.(inPool := false) == if o.inPool then o.(inPool := false) else o;
  }

  /** A replacement brings no id but its own, and keeps the registry well-formed. */
  lemma ReplaceKeepsIds(f: Normalizing, s: Registry, id: string, server: string, newId: string, w: Weather, other: string)
    requires Normalizer(f) && WellFormed(s.entries) && NewId(s.entries, newId)
    ensures var end := ReplaceOf(f, s, id, server, newId, w).0;
            WellFormed(end.entries) && (other != newId && NewId(s.entries, other) ==> NewId(end.entries, other))
  {
    hide FindId, FindHash, Place, Unlisted, WellFormed, Ensured, Committed, Probed, CleanedUp, Substituted, Introducing, Lists,
         NewId, Visible, SameIds, PoolSize, Covered, UsedBy, IsNew;
    if server != "" && Introducing(f, s, id, w).Success? {
      var (o, hash) := Introducing(f, s, id, w).value;
      var entries := Ensured(s.entries, hash, false, newId);
      var e := entries[FindHash(entries, hash)];
      IntroducedFacts(f, s, id, newId, w);
      EnsuredKeepsIds(s.entries, hash, newId, other);
      PlaceAfterProbe(entries, e.id, server, w, other);
      var probed := Probed(entries, e.id, server, w);
      var end := ReplaceOf(f, s, id, server, newId, w).0;
      NoPlace(entries, other);
      NoPlace(probed, other);
      NoPlace(end.entries, other);
      if Judged(w).Some? {
        PlaceAfterCleanup(f, probed, e.id, s.profiles, w.cleaned, other);
      } else if end.entries != probed {
        CommitKeepsIds(f, entries, o, e, server, w, end.profiles, other);
      }
    }
  }

  lemma EnsuredKeepsIds(entries: seq<Entry>, hash: string, newId: string, other: string)
    ensures other != newId && NewId(entries, other) ==> NewId(Ensured(entries, hash, false, newId), other)
  {
    hide FindHash;
  }

  lemma CommitKeepsIds(f: Normalizing, entries: seq<Entry>, o: Entry, e: Entry, server: string, w: Weather,
                       profiles: map<string, Profile>, other: string)
    requires WellFormed(entries) && o in entries && e in entries && o.id != e.id && !e.inPool && Judged(w).None?
    ensures var after := Committed(f, Probed(entries, e.id, server, w), o.id, e.id, profiles);
            WellFormed(after) && (NewId(Probed(entries, e.id, server, w), other) ==> NewId(after, other))
  {
    hide FindId, WellFormed, Committed, WithCheck, Place;
    var check := Check(w.verdict.status, w.verdict.at);
    CheckedMeaning(entries, e, server, check);
    var probed := Probed(entries, e.id, server, w);
    var tested := e.(checks := e.checks[server := check]);
    assert tested in probed && o in probed;
    PlaceAfterCommit(f, probed, o, tested, profiles, other);
    NoPlace(Committed(f, probed, o.id, e.id, profiles), other);
  }

  /** A replacement gives a hash that no shown entry has, tested valid. */
  lemma GivenIsNew(f: Normalizing, s: Registry, id: string, server: string, newId: string, w: Weather)
    requires Normalizer(f) && WellFormed(s.entries) && NewId(s.entries, newId)
    requires ReplaceOf(f, s, id, server, newId, w).1.Success?
    ensures var e := ReplaceOf(f, s, id, server, newId, w).1.value;
            Normal(e.hash) && IsNew(f, s.entries, s.profiles, e.hash)
    ensures w.verdict.Checked? && w.verdict.status == Valid
  {
    hide FindId, FindHash, Ensured, Committed, Probed, CleanedUp, Substituted, Introducing, Lists, Visible, WellFormed, NewId;
    IntroducedFacts(f, s, id, newId, w);
  }

  /** A replacement of an entry in use can give a hash exactly when no shown entry has it. */
  lemma GivenExactly(f: Normalizing, s: Registry, id: string, server: string, newId: string, h: string)
    requires Normalizer(f) && WellFormed(s.entries) && NewId(s.entries, newId) && Normal(h) && server != ""
    requires FindId(s.entries, id) < |s.entries|
    requires var o := s.entries[FindId(s.entries, id)];
             Visible(f, o, s.profiles) && (o.inPool || Lists(f, s.profiles, server, o.hash))
    ensures (exists w :: Gives(f, s, id, server, newId, w, h)) <==> IsNew(f, s.entries, s.profiles, h)
    ensures IsNew(f, s.entries, s.profiles, h) ==> Gives(f, s, id, server, newId, AllWell(Repeating(h)), h)
  {
    hide FindId, FindHash, Ensured, Committed, Probed, CleanedUp, Substituted, Visible, Lists, IsNew, VisibleHashes, OneHash, WellFormed, NewId;
    forall w | Gives(f, s, id, server, newId, w, h) ensures IsNew(f, s.entries, s.profiles, h) {
      GivenIsNew(f, s, id, server, newId, w);
    }
    if IsNew(f, s.entries, s.profiles, h) {
      GenerableExactly(f, VisibleHashes(f, s.entries, s.profiles), h);
      KnownAreShown(f, s.entries, s.profiles, h);
      var w := AllWell(Repeating(h));
      IntroducedFacts(f, s, id, newId, w);
      assert Gives(f, s, id, server, newId, w, h);
    }
  }

  ghost predicate Gives(f: Normalizing, s: Registry, id: string, server: string, newId: string, w: Weather, h: string) {
    var r := ReplaceOf(f, s, id, server, newId, w).1; r.Success? && r.value.hash == h
  }

  /** A failed replacement leaves every shown entry in its place, and the profiles as they were or with the
      new hash for the old one. */
  lemma FailureKeepsPlace(f: Normalizing, s: Registry, id: string, server: string, newId: string, w: Weather, c: Entry)
    requires Normalizer(f) && WellFormed(s.entries) && NewId(s.entries, newId)
    requires c in s.entries && Visible(f, c, s.profiles) && ReplaceOf(f, s, id, server, newId, w).1.Failure?
    ensures var end := ReplaceOf(f, s, id, server, newId, w).0;
            && Place(end.entries, c.id) == Some((c.hash, c.inPool))
            && (end.profiles == s.profiles
                || (Introducing(f, s, id, w).Success? && Normal(Introducing(f, s, id, w).value.1)
                    && Introducing(f, s, id, w).value.1 != Introducing(f, s, id, w).value.0.hash
                    && Introducing(f, s, id, w).value.0.id == id && Introducing(f, s, id, w).value.0 in s.entries
                    && end.profiles == Substituted(f, s.profiles, server, Introducing(f, s, id, w).value.0.hash,
                                                   Introducing(f, s, id, w).value.1)))
  {
    hide FindId, FindHash, Place, Unlisted, WellFormed, Ensured, Committed, Probed, CleanedUp, Substituted, Introducing, Lists,
         NewId, Visible, SameIds, PoolSize, Covered, UsedBy, IsNew;
    if server == "" || Introducing(f, s, id, w).Failure? {
      PlaceOf(s.entries, c);
    } else {
      var (o, hash) := Introducing(f, s, id, w).value;
      var entries := Ensured(s.entries, hash, false, newId);
      var e := entries[FindHash(entries, hash)];
      IntroducedFacts(f, s, id, newId, w);
      PlaceStaysEnsured(s.entries, hash, newId, c);
      StillThere(s.entries, entries, c, e);
      SameHash(entries, c, e);
      ShownIsNotNew(f, s, c, hash);
      PlaceAfterProbe(entries, e.id, server, w, c.id);
      var probed := Probed(entries, e.id, server, w);
      if Judged(w).Some? {
        PlaceAfterCleanup(f, probed, e.id, s.profiles, w.cleaned, c.id);
      } else {
        UnlistedServer(f, s.profiles, server, o.hash, hash);
        if !(Lists(f, s.profiles, server, o.hash) && !w.profileSaved) && w.committed {
          NothingCommitted(f, entries, o, e, server, w, s.profiles);
        }
      }
    }
  }

  lemma ShownIsNotNew(f: Normalizing, s: Registry, c: Entry, hash: string)
    requires c in s.entries && Visible(f, c, s.profiles) && IsNew(f, s.entries, s.profiles, hash)
    ensures c.hash != hash
  {
    hide Visible;
  }

  /** The other hash stays in use by the server or the pool. */
  lemma StaysInUse(f: Normalizing, s: Registry, server: string, c: Entry, d: Entry, newId: string, w: Weather)
    requires Normalizer(f) && WellFormed(s.entries) && NewId(s.entries, newId)
    requires c in s.entries && d in s.entries && c != d && Visible(f, c, s.profiles)
    requires d.inPool || Lists(f, s.profiles, server, d.hash)
    requires ReplaceOf(f, s, c.id, server, newId, w).1.Failure?
    ensures var s1 := ReplaceOf(f, s, c.id, server, newId, w).0;
            && Visible(f, d, s.profiles)
            && Place(s1.entries, d.id) == Some((d.hash, d.inPool)) && Place(s1.entries, c.id) == Some((c.hash, c.inPool))
            && (d.inPool || Lists(f, s1.profiles, server, d.hash))
  {
    hide FindId, Place, WellFormed, NewId, ReplaceOf, Contains, Introducing, Substitute, Visible;
    UnusedIsUnlisted(f, d, s.profiles);
    FailureKeepsPlace(f, s, c.id, server, newId, w, c);
    FailureKeepsPlace(f, s, c.id, server, newId, w, d);
    SameHash(s.entries, c, d);
    var s1 := ReplaceOf(f, s, c.id, server, newId, w).0;
    if Lists(f, s.profiles, server, d.hash) && s1.profiles != s.profiles {
      var (o, hash) := Introducing(f, s, c.id, w).value;
      SameHash(s.entries, c, o);
      NoOldHashLeft(f, s.profiles, server, o.hash, hash);
    }
  }

  /** Hashes are unique, so the only entry that could keep a hash from being new is the one in its place. */
  lemma NewExactlyWhenNotShown(f: Normalizing, s: Registry, id: string, hash: string)
    requires WellFormed(s.entries) && Place(s.entries, id).Some? && Place(s.entries, id).value.0 == hash
    ensures IsNew(f, s.entries, s.profiles, hash) <==> !Shows(f, s, id, hash)
  {
    hide FindId, Visible, WellFormed;
    var x := s.entries[FindId(s.entries, id)];
    forall y | y in s.entries && y.hash == hash ensures y == x {
      SameHash(s.entries, x, y);
    }
  }

  /**
   After a failed replacement of one hash, the replacement of another can give the first one back exactly
   when the first attempt forgot it.
   */
  lemma GivenBackExactly(f: Normalizing, s: Registry, server: string, c: Entry, d: Entry, newId: string, nextId: string, w: Weather)
    requires Normalizer(f) && WellFormed(s.entries) && NewId(s.entries, newId) && NewId(s.entries, nextId) && newId != nextId
    requires server != "" && c in s.entries && d in s.entries && c != d
    requires Visible(f, c, s.profiles) && (d.inPool || Lists(f, s.profiles, server, d.hash))
    requires ReplaceOf(f, s, c.id, server, newId, w).1.Failure?
    ensures var s1 := ReplaceOf(f, s, c.id, server, newId, w).0;
            && ((exists w1 :: Gives(f, s1, d.id, server, nextId, w1, c.hash)) <==> Forgets(f, s, c.id, server, w))
            && (Forgets(f, s, c.id, server, w) ==> Gives(f, s1, d.id, server, nextId, AllWell(Repeating(c.hash)), c.hash))
  {
    hide FindId, WellFormed, NewId, ReplaceOf, Gives, Forgets, Lists, Visible, Shows, IsNew;
    var s1 := ReplaceOf(f, s, c.id, server, newId, w).0;
    ReplaceKeepsIds(f, s, c.id, server, newId, w, nextId);
    ShowsExactly(f, s, c.id, server, newId, w, c);
    StaysInUse(f, s, server, c, d, newId, w);
    NormalEntry(s.entries, c);
    UnusedIsUnlisted(f, s1.entries[FindId(s1.entries, d.id)], s1.profiles);
    ListedIsNotUnlisted(f, s1.profiles, server, d.hash);
    GivenExactly(f, s1, d.id, server, nextId, c.hash);
    NewExactlyWhenNotShown(f, s1, c.id, c.hash);
  }

  lemma NormalEntry(entries: seq<Entry>, e: Entry)
    requires WellFormed(entries) && e in entries
    ensures Normal(e.hash)
  {
  }

  lemma ListedIsNotUnlisted(f: Normalizing, profiles: map<string, Profile>, server: string, hash: string)
    ensures Lists(f, profiles, server, hash) ==> !Unlisted(f, profiles, hash)
  {
    hide Contains;
  }

  /** One server that lists two hashes. */
  function TwoHashes(h: string, k: string): Registry {
    Registry([Entry("1", h, false, map[]), Entry("2", k, false, map[])], map["a" := Profile([h, k], Local)])
  }

  /** An input at which a hash that was to be replaced is given back: the profile could be saved after
      the first attempt, the registry could not, and VK answers the second attempt with the first hash. */
  lemma GivenBack(f: Normalizing, h: string, k: string, g: string)
    requires Normalizer(f) && Normal(h) && Normal(k) && Normal(g) && h != k && h != g && k != g
    ensures var s, w := TwoHashes(h, k), AllWell(Repeating(g)).(committed := false);
            && ReplaceOf(f, s, "1", "a", "3", w).1 == Failure(Disk) && Forgets(f, s, "1", "a", w)
            && Gives(f, ReplaceOf(f, s, "1", "a", "3", w).0, "2", "a", "4", AllWell(Repeating(h)), h)
  {
    hide OneHash, ReplaceOf, VisibleHashes, Gives;
    var s, w := TwoHashes(h, k), AllWell(Repeating(g)).(committed := false);
    var c, d := s.entries[0], s.entries[1];
    var existing := VisibleHashes(f, s.entries, s.profiles);
    assert f(s.profiles["a"].hashes[0]) == Some(h) && f(s.profiles["a"].hashes[1]) == Some(k);
    ListedIsNotUnlisted(f, s.profiles, "a", h);
    UnusedIsUnlisted(f, c, s.profiles);
    GenerableExactly(f, existing, g);
    KnownAreShown(f, s.entries, s.profiles, g);
    assert FindId(s.entries, "1") == 0;
    assert Introducing(f, s, "1", w) == Success((c, g));
    ForgettingFails(f, s, "1", "a", "3", w);
    GivenBackExactly(f, s, "a", c, d, "3", "4", w);
  }

  lemma ForgettingFails(f: Normalizing, s: Registry, id: string, server: string, newId: string, w: Weather)
    requires Forgets(f, s, id, server, w)
    ensures ReplaceOf(f, s, id, server, newId, w).1 == Failure(Disk)
  {
    hide Introducing, Ensured, FindHash, Probed, CleanedUp, Committed, Substituted, Lists, OnlyListedBy;
  }
}
