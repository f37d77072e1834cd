/**
 Settings and profiles on disk (backend/store.go).  A file that does not validate is renamed to a
 backup before anything is written in its place.  The file system is a map that changes by single
 steps, any of which may fail; JSON is a pair of functions that invert each other.
 */
module Store {
  import opened Wrappers

  datatype Settings = Settings(autoStart: bool, obfsMode: string, obfsAccepted: bool, debugLogging: bool)

  datatype ProfileData = ProfileData(deviceId: string, hashPolicy: Option<int>, rest: Bytes)

  datatype Slot = Config | Profile(name: string)

  /** Backups and temporary files lie beside the file of the slot, under names no one else uses. */
  datatype Path = At(slot: Slot) | Backup(slot: Slot, stamp: string) | Temp(slot: Slot, stamp: string)

  type Files = map<Path, Bytes>

  datatype Json = Json(settings: Bytes -> Option<Settings>, profile: Bytes -> Option<ProfileData>,
                       putSettings: Settings -> Bytes, putProfile: ProfileData -> Bytes)

  ghost predicate Sound(j: Json) {
    && (forall x :: j.settings(j.putSettings(x)) == Some(x))
    && (forall x :: j.profile(j.putProfile(x)) == Some(x))
  }

  predicate IsValid(j: Json, s: Slot, d: Bytes) {
    if s.Config? then j.settings(d).Some? else j.profile(d).Some?
  }

  // ---------------------------------------------------------------- steps

  /** How one operation fares: the read, the rename to the backup called stamp, and the write. */
  datatype Luck = Luck(unreadable: bool, stuck: bool, stamp: string, write: Write)

  /** An atomic write stops before or after the temporary file exists, or goes through. */
  datatype Write = Done | NoTemp | Partial(part: Bytes, removed: bool) | NotRenamed(removed: bool)

  datatype Read = Good(data: Bytes) | Missing | Unreadable | Stuck | Quarantined

  function ReadOf(j: Json, files: Files, s: Slot, luck: Luck): Read {
    if luck.unreadable then Unreadable
    else if At(s) !in files then Missing
    else if IsValid(j, s, files[At(s)]) then Good(files[At(s)])
    else if luck.stuck then Stuck
    else Quarantined
  }

  function AfterRead(j: Json, files: Files, s: Slot, luck: Luck): Files {
    if ReadOf(j, files, s, luck) == Quarantined
    then (files - {At(s)})[Backup(s, luck.stamp) := files[At(s)]] else files
  }

  function AfterWrite(files: Files, s: Slot, d: Bytes, luck: Luck): Files {
    match luck.write
    case Done => files[At(s) := d]
    case NoTemp => files
    case Partial(part, removed) => if removed then files else files[Temp(s, luck.stamp) := part]
    case NotRenamed(removed) => if removed then files else files[Temp(s, luck.stamp) := d]
  }

  predicate Blocks(r: Read) {
    r == Unreadable || r == Stuck
  }

  function AfterSave(j: Json, files: Files, s: Slot, d: Bytes, luck: Luck): Files {
    if Blocks(ReadOf(j, files, s, luck)) then files else AfterWrite(AfterRead(j, files, s, luck), s, d, luck)
  }

  /** The profile that is written: an empty device or policy is taken from the file it replaces. */
  function Merged(j: Json, read: Read, p: ProfileData, newDevice: string): ProfileData {
    var existing := if read.Good? then j.profile(read.data) else None;
    var device := if p.deviceId == "" && existing.Some? then existing.value.deviceId else p.deviceId;
    ProfileData(if device == "" then newDevice else device,
                if p.hashPolicy.None? && existing.Some? then existing.value.hashPolicy else p.hashPolicy,
                p.rest)
  }

  datatype Operation =
    | LoadSettings(luck: Luck)
    | SaveSettings(settings: Settings, luck: Luck)
    | LoadProfile(name: string, luck: Luck)
    | SaveProfile(name: string, profile: ProfileData, newDevice: string, luck: Luck)
    | ListProfiles(visits: seq<(string, Luck)>)

  function AfterVisits(j: Json, files: Files, visits: seq<(string, Luck)>): Files
    decreases |visits|
  {
    if visits == [] then files
    else AfterVisits(j, AfterRead(j, files, Profile(visits[0].0), visits[0].1), visits[1..])
  }

  function After(j: Json, files: Files, op: Operation): Files {
    match op
    case LoadSettings(luck) => AfterRead(j, files, Config, luck)
    case SaveSettings(settings, luck) => AfterSave(j, files, Config, j.putSettings(settings), luck)
    case LoadProfile(name, luck) => AfterRead(j, files, Profile(name), luck)
    case SaveProfile(name, p, newDevice, luck) =>
      AfterSave(j, files, Profile(name), j.putProfile(Merged(j, ReadOf(j, files, Profile(name), luck), p, newDevice)), luck)
    case ListProfiles(visits) => AfterVisits(j, files, visits)
  }

  /** Names with a fresh UUID in them are not in use. */
  predicate NewNames(files: Files, s: Slot, luck: Luck) {
    Backup(s, luck.stamp) !in files && Temp(s, luck.stamp) !in files
  }

  predicate VisitsEnabled(j: Json, files: Files, visits: seq<(string, Luck)>)
    decreases |visits|
  {
    visits != [] ==>
      && NewNames(files, Profile(visits[0].0), visits[0].1)
      && VisitsEnabled(j, AfterRead(j, files, Profile(visits[0].0), visits[0].1), visits[1..])
  }

  predicate Enabled(j: Json, files: Files, op: Operation) {
    match op
    case LoadSettings(luck) => NewNames(files, Config, luck)
    case SaveSettings(_, luck) => NewNames(files, Config, luck)
    case LoadProfile(name, luck) => NewNames(files, Profile(name), luck)
    case SaveProfile(name, _, _, luck) => NewNames(files, Profile(name), luck)
    case ListProfiles(visits) => VisitsEnabled(j, files, visits)
  }

  predicate Runs(j: Json, files: Files, ops: seq<Operation>)
    decreases |ops|
  {
    ops == [] || (Enabled(j, files, ops[0]) && Runs(j, After(j, files, ops[0]), ops[1..]))
  }

  function Final(j: Json, files: Files, ops: seq<Operation>): Files
    decreases |ops|
  {
    if ops == [] then files else Final(j, After(j, files, ops[0]), ops[1..])
  }

  // ---------------------------------------------------------------- what is never lost

  /** Where the bytes d of slot s are: in its file or in a backup of it. */
  function Copies(files: Files, s: Slot, d: Bytes): set<Path> {
    set q | q in files && q.slot == s && !q.Temp? && files[q] == d
  }

  lemma CopiesAfterMove(files: Files, s: Slot, stamp: string, t: Slot, d: Bytes)
    requires At(s) in files && Backup(s, stamp) !in files
    ensures |Copies((files - {At(s)})[Backup(s, stamp) := files[At(s)]], t, d)| == |Copies(files, t, d)|
  {
    var after := (files - {At(s)})[Backup(s, stamp) := files[At(s)]];
    var was, now := Copies(files, t, d), Copies(after, t, d);
    if s == t && files[At(s)] == d {
      var rest := was - {At(s)};
      assert now == rest + {Backup(s, stamp)};
      assert Backup(s, stamp) !in rest && |rest| == |was| - 1;
    } else {
      assert now == was;
    }
  }

  lemma CopiesAfterRead(j: Json, files: Files, s: Slot, luck: Luck, t: Slot, d: Bytes)
    requires NewNames(files, s, luck)
    ensures |Copies(AfterRead(j, files, s, luck), t, d)| == |Copies(files, t, d)|
  {
    hide Copies, IsValid;
    if ReadOf(j, files, s, luck) == Quarantined {
      CopiesAfterMove(files, s, luck.stamp, t, d);
    }
  }

  lemma CopiesAfterWrite(j: Json, files: Files, s: Slot, content: Bytes, luck: Luck, t: Slot, d: Bytes)
    requires At(s) in files ==> IsValid(j, s, files[At(s)])
    requires IsValid(j, s, content) && !IsValid(j, t, d)
    ensures Copies(AfterWrite(files, s, content, luck), t, d) == Copies(files, t, d)
  {
  }

  lemma {:induction false} CopiesAfterVisits(j: Json, files: Files, visits: seq<(string, Luck)>, t: Slot, d: Bytes)
    requires VisitsEnabled(j, files, visits)
    ensures |Copies(AfterVisits(j, files, visits), t, d)| == |Copies(files, t, d)|
    decreases |visits|
  {
    if visits != [] {
      CopiesAfterRead(j, files, Profile(visits[0].0), visits[0].1, t, d);
      CopiesAfterVisits(j, AfterRead(j, files, Profile(visits[0].0), visits[0].1), visits[1..], t, d);
    }
  }

  /** No operation loses or doubles a copy of bytes that do not validate. */
  lemma StepConserves(j: Json, files: Files, op: Operation, t: Slot, d: Bytes)
    requires Sound(j) && Enabled(j, files, op) && !IsValid(j, t, d)
    ensures |Copies(After(j, files, op), t, d)| == |Copies(files, t, d)|
  {
    hide Copies, NewNames, AfterWrite, Merged;
    match op {
      case LoadSettings(luck) => CopiesAfterRead(j, files, Config, luck, t, d);
      case LoadProfile(name, luck) => CopiesAfterRead(j, files, Profile(name), luck, t, d);
      case ListProfiles(visits) => CopiesAfterVisits(j, files, visits, t, d);
      case SaveSettings(settings, luck) =>
        SaveConserves(j, files, Config, j.putSettings(settings), luck, t, d);
      case SaveProfile(name, p, newDevice, luck) =>
        var merged := Merged(j, ReadOf(j, files, Profile(name), luck), p, newDevice);
        SaveConserves(j, files, Profile(name), j.putProfile(merged), luck, t, d);
    }
  }

  lemma SaveConserves(j: Json, files: Files, s: Slot, content: Bytes, luck: Luck, t: Slot, d: Bytes)
    requires NewNames(files, s, luck) && IsValid(j, s, content) && !IsValid(j, t, d)
    ensures |Copies(AfterSave(j, files, s, content, luck), t, d)| == |Copies(files, t, d)|
  {
    hide Copies, AfterWrite;
    if !Blocks(ReadOf(j, files, s, luck)) {
      CopiesAfterRead(j, files, s, luck, t, d);
      CopiesAfterWrite(j, AfterRead(j, files, s, luck), s, content, luck, t, d);
    }
  }

  lemma {:induction false} RunConserves(j: Json, files: Files, ops: seq<Operation>, t: Slot, d: Bytes)
    requires Sound(j) && Runs(j, files, ops) && !IsValid(j, t, d)
    ensures |Copies(Final(j, files, ops), t, d)| == |Copies(files, t, d)|
    decreases |ops|
  {
    if ops != [] {
      StepConserves(j, files, ops[0], t, d);
      RunConserves(j, After(j, files, ops[0]), ops[1..], t, d);
    }
  }

  /** A damaged file survives every run: its bytes are where they were, or in one backup and nowhere else. */
  lemma DamagedFileSurvives(j: Json, files: Files, ops: seq<Operation>, s: Slot)
    requires Sound(j) && Runs(j, files, ops)
    requires At(s) in files && !IsValid(j, s, files[At(s)])
    requires forall q :: q in files && q.Backup? && q.slot == s ==> files[q] != files[At(s)]
    ensures var d := files[At(s)]; exists q :: q in {At(s)} + BackupsOf(Final(j, files, ops), s) && Copies(Final(j, files, ops), s, d) == {q}
  {
    hide Final, Runs;
    var d, after := files[At(s)], Final(j, files, ops);
    assert Copies(files, s, d) == {At(s)};
    RunConserves(j, files, ops, s, d);
    var q :| q in Copies(after, s, d);
    assert |Copies(after, s, d) - {q}| == 0;
    assert Copies(after, s, d) == {q};
  }

  function BackupsOf(files: Files, s: Slot): set<Path> {
    set q | q in files && q.Backup? && q.slot == s
  }

  // ---------------------------------------------------------------- devices

  predicate HasDevice(j: Json, files: Files, name: string, device: string) {
    At(Profile(name)) in files && j.profile(files[At(Profile(name))]).Some?
    && j.profile(files[At(Profile(name))]).value.deviceId == device
  }

  /** The operation brings no other device for this profile. */
  predicate NamesNoOther(op: Operation, name: string, device: string) {
    op.SaveProfile? && op.name == name ==> op.profile.deviceId == "" || op.profile.deviceId == device
  }

  lemma ReadKeepsValid(j: Json, files: Files, s: Slot, luck: Luck, t: Slot)
    requires At(t) in files && IsValid(j, t, files[At(t)])
    ensures var after := AfterRead(j, files, s, luck); At(t) in after && after[At(t)] == files[At(t)]
  {
  }

  lemma {:induction false} VisitsKeepValid(j: Json, files: Files, visits: seq<(string, Luck)>, t: Slot)
    requires At(t) in files && IsValid(j, t, files[At(t)])
    ensures var after := AfterVisits(j, files, visits); At(t) in after && after[At(t)] == files[At(t)]
    decreases |visits|
  {
    if visits != [] {
      ReadKeepsValid(j, files, Profile(visits[0].0), visits[0].1, t);
      VisitsKeepValid(j, AfterRead(j, files, Profile(visits[0].0), visits[0].1), visits[1..], t);
    }
  }

  lemma StepKeepsDevice(j: Json, files: Files, op: Operation, name: string, device: string)
    requires Sound(j) && HasDevice(j, files, name, device) && device != "" && NamesNoOther(op, name, device)
    ensures HasDevice(j, After(j, files, op), name, device)
  {
    hide AfterVisits;
    var t := Profile(name);
    match op {
      case LoadSettings(luck) => ReadKeepsValid(j, files, Config, luck, t);
      case SaveSettings(_, luck) => ReadKeepsValid(j, files, Config, luck, t);
      case LoadProfile(other, luck) => ReadKeepsValid(j, files, Profile(other), luck, t);
      case SaveProfile(other, _, _, luck) => ReadKeepsValid(j, files, Profile(other), luck, t);
      case ListProfiles(visits) => VisitsKeepValid(j, files, visits, t);
    }
  }

  /** Once a device is saved with a profile, no run that names no other one changes it. */
  lemma {:induction false} DeviceSurvives(j: Json, files: Files, ops: seq<Operation>, name: string, device: string)
    requires Sound(j) && HasDevice(j, files, name, device) && device != ""
    requires forall op :: op in ops ==> NamesNoOther(op, name, device)
    ensures HasDevice(j, Final(j, files, ops), name, device)
    decreases |ops|
  {
    if ops != [] {
      StepKeepsDevice(j, files, ops[0], name, device);
      DeviceSurvives(j, After(j, files, ops[0]), ops[1..], name, device);
    }
  }

  // ---------------------------------------------------------------- what changes a file

  /** The operation is a save of this slot that gets through: the old file could be read and, if it did
      not validate, moved away, and the write was completed. */
  predicate Saves(j: Json, files: Files, op: Operation, t: Slot) {
    (op.SaveSettings? || op.SaveProfile?) && t == (if op.SaveSettings? then Config else Profile(op.name))
    && op.luck.write.Done? && !op.luck.unreadable
    && (At(t) in files && !IsValid(j, t, files[At(t)]) ==> !op.luck.stuck)
  }

  /** What such a save writes: the settings, or the profile with the device and the policy of the file it
      replaces where it names none, and a new device where there is none yet. */
  ghost predicate Writes(j: Json, files: Files, op: Operation, t: Slot, d: Bytes) {
    match op
    case SaveSettings(settings, _) => d == j.putSettings(settings)
    case SaveProfile(_, p, newDevice, _) =>
      exists q :: d == j.putProfile(q) && q.rest == p.rest
        && if At(t) in files && j.profile(files[At(t)]).Some? then
             var e := j.profile(files[At(t)]).value;
             && q.deviceId == (if p.deviceId != "" then p.deviceId else if e.deviceId != "" then e.deviceId else newDevice)
             && q.hashPolicy == (if p.hashPolicy.Some? then p.hashPolicy else e.hashPolicy)
           else q.deviceId == (if p.deviceId != "" then p.deviceId else newDevice) && q.hashPolicy == p.hashPolicy
    case _ => false
  }

  predicate SameAt(before: Files, after: Files, q: Path) {
    (q in before <==> q in after) && (q in before ==> after[q] == before[q])
  }

  lemma ReadTouches(j: Json, files: Files, s: Slot, luck: Luck, q: Path)
    requires q != Backup(s, luck.stamp)
    requires q == At(s) ==> q !in files || IsValid(j, s, files[q]) || luck.unreadable || luck.stuck
    ensures SameAt(files, AfterRead(j, files, s, luck), q)
  {
  }

  lemma {:induction false} VisitsTouch(j: Json, files: Files, visits: seq<(string, Luck)>, t: Slot)
    requires At(t) in files ==> IsValid(j, t, files[At(t)])
    ensures SameAt(files, AfterVisits(j, files, visits), At(t))
    decreases |visits|
  {
    if visits != [] {
      ReadTouches(j, files, Profile(visits[0].0), visits[0].1, At(t));
      VisitsTouch(j, AfterRead(j, files, Profile(visits[0].0), visits[0].1), visits[1..], t);
    }
  }

  /** A file that validates, or is missing, changes by no operation but a save of its slot that gets through,
      and then holds what that save was given: a failed one, whatever fails, leaves it alone. */
  lemma FileChangesOnlyBySaving(j: Json, files: Files, op: Operation, t: Slot)
    requires Sound(j) && Enabled(j, files, op)
    requires At(t) in files ==> IsValid(j, t, files[At(t)])
    ensures !Saves(j, files, op, t) ==> SameAt(files, After(j, files, op), At(t))
    ensures Saves(j, files, op, t) ==> At(t) in After(j, files, op) && Writes(j, files, op, t, After(j, files, op)[At(t)])
  {
    hide AfterVisits;
    match op {
      case LoadSettings(luck) => ReadTouches(j, files, Config, luck, At(t));
      case LoadProfile(name, luck) => ReadTouches(j, files, Profile(name), luck, At(t));
      case ListProfiles(visits) => VisitsTouch(j, files, visits, t);
      case SaveSettings(_, luck) =>
      case SaveProfile(name, p, newDevice, luck) =>
        var read := ReadOf(j, files, Profile(name), luck);
        assert !Blocks(read) && t == Profile(name) && luck.write.Done? ==>
          After(j, files, op)[At(t)] == j.putProfile(Merged(j, read, p, newDevice));
    }
  }

  /** A damaged file is in its place or moved away; only a save that gets through puts another there. */
  lemma DamagedFileIsReplacedOnlyBySaving(j: Json, files: Files, s: Slot, op: Operation)
    requires Sound(j) && Enabled(j, files, op) && At(s) in files && !IsValid(j, s, files[At(s)])
    ensures !Saves(j, files, op, s) ==> At(s) !in After(j, files, op) || After(j, files, op)[At(s)] == files[At(s)]
    ensures Saves(j, files, op, s) ==>
              && At(s) in After(j, files, op) && Writes(j, files, op, s, After(j, files, op)[At(s)])
              && Backup(s, op.luck.stamp) in After(j, files, op) && After(j, files, op)[Backup(s, op.luck.stamp)] == files[At(s)]
  {
    match op {
      case SaveProfile(name, p, newDevice, luck) =>
        var read := ReadOf(j, files, Profile(name), luck);
        assert !Blocks(read) && s == Profile(name) && luck.write.Done? ==>
          After(j, files, op)[At(s)] == j.putProfile(Merged(j, read, p, newDevice));
      case ListProfiles(visits) => VisitsOnlyMove(j, files, visits, s);
      case _ =>
    }
  }

  lemma {:induction false} VisitsOnlyMove(j: Json, files: Files, visits: seq<(string, Luck)>, s: Slot)
    ensures At(s) in AfterVisits(j, files, visits) ==> At(s) in files && AfterVisits(j, files, visits)[At(s)] == files[At(s)]
    decreases |visits|
  {
    if visits != [] {
      VisitsOnlyMove(j, AfterRead(j, files, Profile(visits[0].0), visits[0].1), visits[1..], s);
    }
  }

  lemma {:induction false} BackupsStayInVisits(j: Json, files: Files, visits: seq<(string, Luck)>, q: Path)
    requires VisitsEnabled(j, files, visits) && q.Backup? && q in files
    ensures SameAt(files, AfterVisits(j, files, visits), q)
    decreases |visits|
  {
    if visits != [] {
      ReadTouches(j, files, Profile(visits[0].0), visits[0].1, q);
      BackupsStayInVisits(j, AfterRead(j, files, Profile(visits[0].0), visits[0].1), visits[1..], q);
    }
  }

  /** No operation touches a backup. */
  lemma BackupsStay(j: Json, files: Files, op: Operation, q: Path)
    requires Enabled(j, files, op) && q.Backup? && q in files
    ensures SameAt(files, After(j, files, op), q)
  {
    hide AfterVisits;
    match op {
      case ListProfiles(visits) => BackupsStayInVisits(j, files, visits, q);
      case LoadSettings(luck) => ReadTouches(j, files, Config, luck, q);
      case LoadProfile(name, luck) => ReadTouches(j, files, Profile(name), luck, q);
      case SaveSettings(_, luck) => ReadTouches(j, files, Config, luck, q);
      case SaveProfile(name, _, _, luck) => ReadTouches(j, files, Profile(name), luck, q);
    }
  }

  /** A completed save is read back as it was given, with the device it had or got. */
  lemma SavedIsLoaded(j: Json, files: Files, name: string, p: ProfileData, newDevice: string, luck: Luck, next: Luck)
    requires Sound(j) && luck.write.Done? && !Blocks(ReadOf(j, files, Profile(name), luck)) && !next.unreadable
    ensures var merged := Merged(j, ReadOf(j, files, Profile(name), luck), p, newDevice);
            var after := After(j, files, SaveProfile(name, p, newDevice, luck));
            && ReadOf(j, after, Profile(name), next) == Good(j.putProfile(merged))
            && j.profile(j.putProfile(merged)) == Some(merged)
            && merged.rest == p.rest && (p.deviceId != "" ==> merged.deviceId == p.deviceId)
            && (p.hashPolicy.Some? ==> merged.hashPolicy == p.hashPolicy)
            && (At(Profile(name)) in files && j.profile(files[At(Profile(name))]).Some? ==>
                  var e := j.profile(files[At(Profile(name))]).value;
                  && (p.deviceId == "" && e.deviceId != "" ==> merged.deviceId == e.deviceId)
                  && (p.hashPolicy.None? ==> merged.hashPolicy == e.hashPolicy))
            && (newDevice != "" ==> merged.deviceId != "" && HasDevice(j, after, name, merged.deviceId))
  {
  }

  // ---------------------------------------------------------------- the store

  datatype Kind = SettingsFile | ProfileFile

  datatype Notice = Notice(kind: Kind, event: Read)

  class FileStore {
    const j: Json
    var files: Files
    var notices: seq<Notice>

    ghost predicate Ok()
      reads this
    {
      Sound(j) && forall i, k :: 0 <= i < k < |notices| ==> notices[i] != notices[k]
    }

    constructor (j: Json, files: Files)
      requires Sound(j)
      ensures Ok() && this.j == j && this.files == files && notices == []
    {
      this.j := j;
      this.files := files;
      notices := [];
    }

    method AddNotice(n: Notice)
      requires Ok()
      modifies this`notices
      ensures Ok() && notices == if n in old(notices) then old(notices) else old(notices) + [n]
    {
      if n !in notices {
        notices := notices + [n];
      }
    }

    /** readJSON: what does not validate is moved away, byte for byte, or nothing changes. */
    method ReadJson(s: Slot, luck: Luck) returns (r: Read)
      requires Ok()
      modifies this
      ensures Ok() && r == ReadOf(j, old(files), s, luck) && files == AfterRead(j, old(files), s, luck)
      ensures luck.unreadable <==> r == Unreadable
      ensures r == Missing <==> !luck.unreadable && At(s) !in old(files)
      ensures r.Good? <==> !luck.unreadable && At(s) in old(files) && IsValid(j, s, old(files)[At(s)])
      ensures r.Good? ==> r.data == old(files)[At(s)]
      ensures r == Stuck <==> !luck.unreadable && At(s) in old(files) && !IsValid(j, s, old(files)[At(s)]) && luck.stuck
      ensures files == if r == Quarantined then (old(files) - {At(s)})[Backup(s, luck.stamp) := old(files)[At(s)]] else old(files)
      ensures old(notices) <= notices
      ensures r.Good? || r.Missing? ==> notices == old(notices)
      ensures !r.Good? && !r.Missing? ==> Notice(if s.Config? then SettingsFile else ProfileFile, r) in notices
    {
      var kind := if s.Config? then SettingsFile else ProfileFile;
      if luck.unreadable {
        AddNotice(Notice(kind, Unreadable));
        return Unreadable;
      }
      if At(s) !in files {
        return Missing;
      }
      if IsValid(j, s, files[At(s)]) {
        return Good(files[At(s)]);
      }
      if luck.stuck {
        AddNotice(Notice(kind, Stuck));
        return Stuck;
      }
      files := (files - {At(s)})[Backup(s, luck.stamp) := files[At(s)]];
      AddNotice(Notice(kind, Quarantined));
      r := Quarantined;
    }

    method AtomicWrite(s: Slot, d: Bytes, luck: Luck) returns (ok: bool)
      modifies this`files
      ensures files == AfterWrite(old(files), s, d, luck)
      ensures ok <==> luck.write.Done?
      ensures ok ==> files == old(files)[At(s) := d]
      ensures !ok ==> forall q :: q != Temp(s, luck.stamp) ==> SameAt(old(files), files, q)
      ensures luck.write.NoTemp? || (!ok && luck.write.removed) ==> files == old(files)
    {
      var temp := Temp(s, luck.stamp);
      ghost var before := files;
      match luck.write {
        case NoTemp => return false;
        case Partial(part, removed) =>
          if !removed {
            files := files[temp := part];
          }
          return false;
        case NotRenamed(removed) =>
          if !removed {
            files := files[temp := d];
          }
          return false;
        case Done =>
          files := files[At(s) := d];
          return true;
      }
    }

    method LoadSettingsFile(luck: Luck) returns (r: Settings)
      requires Ok()
      modifies this
      ensures Ok() && files == After(j, old(files), LoadSettings(luck))
      ensures var read := ReadOf(j, old(files), Config, luck);
              r == if read.Good? then
                     var saved := j.settings(read.data).value;
                     if saved.obfsAccepted then saved else saved.(obfsMode := "audio")
                   else Settings(true, "audio", false, false)
      ensures !r.obfsAccepted ==> r.obfsMode == "audio"
    {
      var read := ReadJson(Config, luck);
      if !read.Good? {
        return DefaultSettings();
      }
      r := j.settings(read.data).value;
      if !r.obfsAccepted {
        r := r.(obfsMode := "audio");
      }
    }

    method SaveSettingsFile(settings: Settings, luck: Luck) returns (ok: bool)
      requires Ok()
      modifies this
      ensures Ok() && files == After(j, old(files), SaveSettings(settings, luck))
      ensures ok <==> !Blocks(ReadOf(j, old(files), Config, luck)) && luck.write.Done?
      ensures Blocks(ReadOf(j, old(files), Config, luck)) ==> files == old(files)
    {
      var read := ReadJson(Config, luck);
      if Blocks(read) {
        return false;
      }
      ok := AtomicWrite(Config, j.putSettings(settings), luck);
    }

    method LoadProfileFile(name: string, luck: Luck) returns (r: Option<ProfileData>)
      requires Ok()
      modifies this
      ensures Ok() && files == After(j, old(files), LoadProfile(name, luck))
      ensures var read := ReadOf(j, old(files), Profile(name), luck);
              r == if read.Good? then j.profile(read.data) else None
    {
      var read := ReadJson(Profile(name), luck);
      r := if read.Good? then j.profile(read.data) else None;
    }

    method SaveProfileFile(name: string, profile: ProfileData, newDevice: string, luck: Luck) returns (ok: bool)
      requires Ok()
      modifies this
      ensures Ok() && files == After(j, old(files), SaveProfile(name, profile, newDevice, luck))
      ensures ok <==> !Blocks(ReadOf(j, old(files), Profile(name), luck)) && luck.write.Done?
      ensures Blocks(ReadOf(j, old(files), Profile(name), luck)) ==> files == old(files)
    {
      var read := ReadJson(Profile(name), luck);
      if Blocks(read) {
        return false;
      }
      var p := profile;
      if read.Good? {
        var existing := j.profile(read.data).value;
        if p.deviceId == "" {
          p := p.(deviceId := existing.deviceId);
        }
        if p.hashPolicy.None? {
          p := p.(hashPolicy := existing.hashPolicy);
        }
      }
      if p.deviceId == "" {
        p := p.(deviceId := newDevice);
      }
      ok := AtomicWrite(Profile(name), j.putProfile(p), luck);
    }

    /** The profiles whose files were read and validate; the others are moved away or left, never dropped. */
    method ListProfileFiles(visits: seq<(string, Luck)>) returns (r: map<string, ProfileData>)
      requires Ok()
      requires forall i, k :: 0 <= i < k < |visits| ==> visits[i].0 != visits[k].0
      modifies this
      ensures Ok() && files == After(j, old(files), ListProfiles(visits))
      ensures forall name :: name in r <==> exists i :: 0 <= i < |visits| && visits[i].0 == name
                                              && ReadOf(j, old(files), Profile(name), visits[i].1).Good?
      ensures forall name :: name in r ==> At(Profile(name)) in files && j.profile(files[At(Profile(name))]) == Some(r[name])
    {
      r := map[];
      ghost var begin := files;
      assert visits[0..] == visits;
      for i := 0 to |visits|
        invariant Ok()
        invariant AfterVisits(j, begin, visits) == AfterVisits(j, files, visits[i..])
        invariant forall k :: i <= k < |visits| ==>
                    (At(Profile(visits[k].0)) in files <==> At(Profile(visits[k].0)) in begin)
                    && (At(Profile(visits[k].0)) in files ==> files[At(Profile(visits[k].0))] == begin[At(Profile(visits[k].0))])
        invariant forall name :: name in r <==> exists k :: 0 <= k < i && visits[k].0 == name
                                                  && ReadOf(j, begin, Profile(name), visits[k].1).Good?
        invariant forall name :: name in r ==> At(Profile(name)) in files
                                               && j.profile(files[At(Profile(name))]) == Some(r[name])
      {
        var name, luck := visits[i].0, visits[i].1;
        ghost var before := files;
        var read := ReadJson(Profile(name), luck);
        assert visits[i..][1..] == visits[i + 1..];
        if read.Good? {
          r := r[name := j.profile(read.data).value];
        }
      }
    }
  }

  function DefaultSettings(): Settings {
    Settings(true, "audio", false, false)
  }
}
