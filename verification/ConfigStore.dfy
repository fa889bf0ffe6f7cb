/** `ConfigStore`: the appliance's settings file. Two guarantees: a power cut at any
    step of a write leaves the old settings or the new ones, and concurrent updates
    never lose each other's fields. */
module ConfigStores {
  import opened Prelude

  // ---- Settings and merges ------------------------------------------------

  type Bitrate = b: int | b in {96, 160, 320} witness 320

  datatype Config = Config(name: string, bitrate: Bitrate, address: Option<string>)

  const DEFAULTS := Config("PartyBox", 320, None)

  /** A settings file's parsed text; a JSON null stands as None. */
  datatype Stored = Stored(name: Option<string>, bitrate: Option<Bitrate>, address: Option<string>) {
    predicate Valid() {
      name.Some? && bitrate.Some?
    }

    function AsConfig(): Config
      requires Valid()
    {
      Config(name.value, bitrate.value, address)
    }
  }

  /** One field of a partial update: left out of the request, or sent, perhaps as null. */
  datatype Change<T> = Absent | Sent(value: T) | Null

  datatype Patch = Patch(name: Change<string>, bitrate: Change<Bitrate>, address: Change<string>)

  function MergeField<T>(was: Option<T>, c: Change<T>): Option<T> {
    match c
    case Absent => was
    case Sent(v) => Some(v)
    case Null => None
  }

  /** `put_config`'s merge: only fields present in the request change. */
  function Merge(cfg: Config, p: Patch): Stored {
    Stored(MergeField(Some(cfg.name), p.name), MergeField(Some(cfg.bitrate), p.bitrate), MergeField(cfg.address, p.address))
  }

  // ---- A disk that can lose power -----------------------------------------

  /** What the bytes of a file parse to. */
  datatype Data = Json(stored: Stored) | Torn

  datatype File = File(data: Data, synced: bool)

  type Inode = nat

  /** The two names that matter in the data directory. */
  datatype Dir = Dir(config: Option<Inode>, tmp: Option<Inode>)

  /** `states` runs from the directory as last synced to the directory as it is. */
  datatype Fs = Fs(files: map<Inode, File>, states: seq<Dir>) {
    ghost predicate Valid() {
      && states != []
      && forall i | 0 <= i < |states| ::
          && (states[i].config.Some? ==> states[i].config.value in files)
          && (states[i].tmp.Some? ==> states[i].tmp.value in files)
    }

    function Now(): Dir
      requires states != []
    {
      states[|states| - 1]
    }

    function Relink(d: Dir): Fs {
      this.(states := states + [d])
    }
  }

  /** Losing power: synced data survives, other data may turn into anything, and the
      directory comes back as it was at some moment since its last sync. */
  ghost predicate Crashes(fs: Fs, after: Fs) {
    && after.files.Keys == fs.files.Keys
    && (forall n | n in fs.files :: after.files[n].synced && (fs.files[n].synced ==> after.files[n] == fs.files[n]))
    && |after.states| == 1 && after.states[0] in fs.states
  }

  /** What a file's data means to a reader: anything unreadable means the defaults. */
  function Meaning(d: Data): Config {
    match d
    case Json(s) => if s.Valid() then s.AsConfig() else DEFAULTS
    case Torn => DEFAULTS
  }

  function ReadDir(files: map<Inode, File>, d: Dir): Config {
    if d.config.None? || d.config.value !in files then DEFAULTS
    else Meaning(files[d.config.value].data)
  }

  function ReadFs(fs: Fs): Config
    requires fs.states != []
  {
    ReadDir(fs.files, fs.Now())
  }

  /** No moment the disk may come back to names unsynced data as the settings file,
      and the temporary file is never the settings file. */
  ghost predicate Safe(fs: Fs) {
    && fs.Valid()
    && (forall i | 0 <= i < |fs.states| && fs.states[i].config.Some? ::
          && fs.files[fs.states[i].config.value].synced
          && fs.states[i].config != fs.states[i].tmp
          && fs.states[i].config != fs.Now().tmp)
  }

  /** The settings the next boot may find. */
  ghost predicate MayBoot(fs: Fs, cfg: Config) {
    exists i | 0 <= i < |fs.states| :: ReadDir(fs.files, fs.states[i]) == cfg
  }

  /** A power cut now leaves only settings the next boot may find, and a safe disk. */
  lemma CrashReads(fs: Fs, after: Fs)
    requires Safe(fs) && Crashes(fs, after)
    ensures Safe(after) && MayBoot(fs, ReadFs(after))
    ensures forall cfg | MayBoot(after, cfg) :: cfg == ReadFs(after)
  {
  }

  /** A state of the disk in which the next boot finds `cfg` or what it could have
      found before. */
  ghost predicate Allowed(before: Fs, cfg: Config, fs: Fs) {
    Safe(fs) && forall c | MayBoot(fs, c) :: c == cfg || MayBoot(before, c)
  }

  /** Nothing new can boot. */
  ghost predicate Unmoved(before: Fs, fs: Fs) {
    forall c | MayBoot(fs, c) :: MayBoot(before, c)
  }

  ghost predicate Only(fs: Fs, cfg: Config) {
    MayBoot(fs, cfg) && forall c | MayBoot(fs, c) :: c == cfg
  }

  /** Losing power in any state an operation allows: the reboot finds the old settings
      or the new ones, on a disk the next operation can start from. */
  lemma PowerCut(before: Fs, was: Config, cfg: Config, fs: Fs, after: Fs)
    requires Only(before, was) && Allowed(before, cfg, fs) && Crashes(fs, after)
    ensures Safe(after) && ReadFs(after) in {was, cfg} && Only(after, ReadFs(after))
  {
    CrashReads(fs, after);
    assert after.states[0] == after.Now();
    assert ReadDir(after.files, after.states[0]) == ReadFs(after);
    hide ReadDir, Crashes;
  }

  // ---- The disk operations of a write -------------------------------------

  function SetTmp(fs: Fs, f: File): Fs
    requires fs.states != [] && fs.Now().tmp.Some?
  {
    fs.(files := fs.files[fs.Now().tmp.value := f])
  }

  function LinkTmp(fs: Fs, spare: Inode): Fs
    requires fs.states != []
  {
    fs.(files := fs.files[spare := File(Torn, false)]).Relink(fs.Now().(tmp := Some(spare)))
  }

  function DropTmp(fs: Fs): Fs
    requires fs.states != []
  {
    fs.Relink(fs.Now().(tmp := None))
  }

  function ReplaceByTmp(fs: Fs): Fs
    requires fs.states != []
  {
    fs.Relink(Dir(fs.Now().tmp, None))
  }

  function DropConfig(fs: Fs): Fs
    requires fs.states != []
  {
    fs.Relink(fs.Now().(config := None))
  }

  function SyncedDir(fs: Fs): Fs
    requires fs.states != []
  {
    fs.(states := [fs.Now()])
  }

  lemma SetTmpIsInvisible(fs: Fs, f: File)
    requires Safe(fs) && fs.Now().tmp.Some?
    ensures Safe(SetTmp(fs, f)) && ReadFs(SetTmp(fs, f)) == ReadFs(fs)
    ensures forall c | MayBoot(SetTmp(fs, f), c) :: MayBoot(fs, c)
  {
  }

  lemma NowMayBoot(fs: Fs)
    requires fs.states != []
    ensures MayBoot(fs, ReadFs(fs))
  {
  }

  lemma LinkTmpIsInvisible(fs: Fs, spare: Inode)
    requires Safe(fs) && spare !in fs.files
    ensures Safe(LinkTmp(fs, spare)) && ReadFs(LinkTmp(fs, spare)) == ReadFs(fs)
    ensures forall c | MayBoot(LinkTmp(fs, spare), c) :: MayBoot(fs, c)
  {
  }

  lemma DropTmpIsInvisible(fs: Fs)
    requires Safe(fs)
    ensures Safe(DropTmp(fs)) && ReadFs(DropTmp(fs)) == ReadFs(fs)
    ensures forall c | MayBoot(DropTmp(fs), c) :: MayBoot(fs, c)
  {
  }

  lemma ReplaceSwitches(fs: Fs)
    requires Safe(fs) && fs.Now().tmp.Some? && fs.files[fs.Now().tmp.value].synced
    ensures Safe(ReplaceByTmp(fs)) && ReadFs(ReplaceByTmp(fs)) == Meaning(fs.files[fs.Now().tmp.value].data)
    ensures forall c | MayBoot(ReplaceByTmp(fs), c) :: c == ReadFs(ReplaceByTmp(fs)) || MayBoot(fs, c)
  {
  }

  lemma DropConfigSwitches(fs: Fs)
    requires Safe(fs)
    ensures Safe(DropConfig(fs)) && ReadFs(DropConfig(fs)) == DEFAULTS
    ensures forall c | MayBoot(DropConfig(fs), c) :: c == DEFAULTS || MayBoot(fs, c)
  {
  }

  lemma SyncDirSettles(fs: Fs)
    requires Safe(fs)
    ensures Safe(SyncedDir(fs)) && ReadFs(SyncedDir(fs)) == ReadFs(fs) && Only(SyncedDir(fs), ReadFs(fs))
  {
  }

  /** There is a settings file, but not one that parses. */
  predicate Damaged(fs: Fs)
    requires fs.states != []
  {
    fs.Now().config.Some? && fs.Now().config.value in fs.files
    && match fs.files[fs.Now().config.value].data
       case Torn => true
       case Json(stored) => stored.name.None? || stored.bitrate.None?
  }

  /** A step at which the operating system may refuse. */
  datatype Refusal = OpenTmp | WriteTmp | SyncTmp | ReplaceFile | Unlink | SyncDir

  /** Whether a write gets past its rename. */
  predicate Landed(refusal: Option<Refusal>) {
    refusal !in {Some(OpenTmp), Some(WriteTmp), Some(SyncTmp), Some(ReplaceFile)}
  }

  class ConfigStore {
    var fs: Fs
    /** The operation in progress: the disk it found, the settings it leads to, and
        every state of the disk since, for a power cut to strike in. */
    ghost var before: Fs
    ghost var target: Config
    ghost var trail: seq<Fs>

    constructor (fs: Fs)
      ensures this.fs == fs && trail == [fs]
    {
      this.fs, before, target, trail := fs, fs, DEFAULTS, [fs];
    }

    ghost predicate Atomic()
      reads this
    {
      && trail != [] && trail[|trail| - 1] == fs
      && forall k | 0 <= k < |trail| :: Allowed(before, target, trail[k])
    }

    method Go(next: Fs)
      requires Atomic() && Allowed(before, target, next)
      modifies `fs, `trail
      ensures Atomic() && fs == next && trail == old(trail) + [next]
    {
      fs := next;
      trail := trail + [next];
    }

    /** `read`, setting aside a file it cannot parse if the disk lets it. */
    method Read(canRename: bool) returns (cfg: Config)
      requires Safe(fs)
      modifies `fs
      ensures Safe(fs) && cfg == ReadFs(old(fs)) && ReadFs(fs) == cfg
      ensures fs == if canRename && Damaged(old(fs)) then DropConfig(old(fs)) else old(fs)
      ensures forall c | MayBoot(fs, c) :: MayBoot(old(fs), c)
    {
      cfg := ReadFs(fs);
      var d := fs.Now();
      if d.config.Some? && canRename {
        var data := fs.files[d.config.value].data;
        if data.Torn? || !data.stored.Valid() {
          DropConfigSwitches(fs);
          NowMayBoot(fs);
          fs := DropConfig(fs);
        }
      }
    }

    /** `write`: temp file, fsync, rename, fsync the directory. It either returns, with
        the new settings the only ones any later boot can find, or raises. */
    method Write(stored: Stored, spare: Inode, refusal: Option<Refusal>) returns (ok: bool)
      requires Safe(fs) && spare !in fs.files
      modifies this
      ensures before == old(fs) && target == Meaning(Json(stored)) && Atomic() && trail[0] == before
      ensures ok <==> refusal !in {Some(OpenTmp), Some(WriteTmp), Some(SyncTmp), Some(ReplaceFile), Some(SyncDir)}
      ensures ok ==> Only(fs, target)
      ensures ReadFs(fs) == if ok || refusal == Some(SyncDir) then target else ReadFs(before)
      ensures !ok && refusal != Some(SyncDir) ==> Unmoved(before, fs)
    {
      before, target, trail := fs, Meaning(Json(stored)), [fs];
      ok := Replace(stored, spare, refusal);
      if fs.Now().tmp.Some? {
        DropTmpIsInvisible(fs);
        Go(DropTmp(fs));
      }
      if !ok || refusal == Some(SyncDir) {
        return false;
      }
      SyncDirSettles(fs);
      Go(SyncedDir(fs));
    }

    /** The part of `write` that its cleanup guards. */
    method Replace(stored: Stored, spare: Inode, refusal: Option<Refusal>) returns (ok: bool)
      requires Safe(fs) && spare !in fs.files && before == fs && target == Meaning(Json(stored)) && Atomic()
      modifies `fs, `trail
      ensures Atomic() && trail[0] == old(trail[0])
      ensures ok <==> refusal !in {Some(OpenTmp), Some(WriteTmp), Some(SyncTmp), Some(ReplaceFile)}
      ensures ReadFs(fs) == if ok then target else ReadFs(before)
      ensures !ok ==> Unmoved(before, fs)
    {
      hide MayBoot, ReadDir, Meaning;
      if refusal == Some(OpenTmp) {
        return false;
      }
      if fs.Now().tmp.None? {
        LinkTmpIsInvisible(fs, spare);
        Go(LinkTmp(fs, spare));
      } else {
        SetTmpIsInvisible(fs, File(Torn, false));
        Go(SetTmp(fs, File(Torn, false)));
      }
      if refusal == Some(WriteTmp) {
        return false;
      }
      SetTmpIsInvisible(fs, File(Json(stored), false));
      Go(SetTmp(fs, File(Json(stored), false)));
      if refusal == Some(SyncTmp) {
        return false;
      }
      SetTmpIsInvisible(fs, File(Json(stored), true));
      Go(SetTmp(fs, File(Json(stored), true)));
      if refusal == Some(ReplaceFile) {
        return false;
      }
      ReplaceSwitches(fs);
      Go(ReplaceByTmp(fs));
      ok := true;
    }

    /** `reset`: unlink the file and fsync the directory. */
    method Reset(refusal: Option<Refusal>) returns (ok: bool)
      requires Safe(fs)
      modifies this
      ensures before == old(fs) && target == DEFAULTS && Atomic() && trail[0] == before
      ensures ok <==> refusal !in {Some(Unlink), Some(SyncDir)}
      ensures ok ==> Only(fs, DEFAULTS)
      ensures if refusal == Some(Unlink) then fs == before else ReadFs(fs) == DEFAULTS
    {
      before, target, trail := fs, DEFAULTS, [fs];
      if refusal == Some(Unlink) {
        return false;
      }
      if fs.Now().config.Some? {
        DropConfigSwitches(fs);
        Go(DropConfig(fs));
      }
      if refusal == Some(SyncDir) {
        return false;
      }
      SyncDirSettles(fs);
      Go(SyncedDir(fs));
      ok := true;
    }
  }

  // ---- Concurrent updates -------------------------------------------------

  /** A locked operation: a partial update from the portal or the pairing service, or
      a factory reset. */
  datatype Op = Update(patch: Patch) | Reset

  function Effect(cfg: Config, op: Op): Config {
    match op
    case Update(p) => Meaning(Json(Merge(cfg, p)))
    case Reset => DEFAULTS
  }

  /** One operation after another. */
  function Effects(cfg: Config, ops: seq<Op>): Config {
    if ops == [] then cfg else Effect(Effects(cfg, ops[..|ops| - 1]), ops[|ops| - 1])
  }

  lemma EffectsLast(cfg: Config, ops: seq<Op>, op: Op)
    ensures Effects(cfg, ops + [op]) == Effect(Effects(cfg, ops), op)
  {
  }

  /** A moment of the disk's life: what it holds, the operations carried out so far, how
      many of them have returned to stay, and the one in flight. */
  datatype Moment = Moment(fs: Fs, done: seq<Op>, durable: nat, inFlight: Option<Op>)

  /** The outcome of the operations carried out, short perhaps of the last few, whose
      directory sync failed; or of all of them and the one in flight. */
  ghost predicate Accounted(initial: Config, m: Moment, cfg: Config) {
    || (exists n: nat | m.durable <= n <= |m.done| :: cfg == Effects(initial, m.done[..n]))
    || (m.inFlight.Some? && cfg == Effects(initial, m.done + [m.inFlight.value]))
  }

  /** Whatever may boot now is accounted for. */
  ghost predicate Sound(initial: Config, m: Moment) {
    Safe(m.fs) && m.durable <= |m.done| && forall c | MayBoot(m.fs, c) :: Accounted(initial, m, c)
  }

  ghost predicate BootsAccounted(initial: Config, m: Moment, after: Fs) {
    Safe(after) && Accounted(initial, m, ReadFs(after))
  }

  lemma SoundIsSafe(initial: Config, m: Moment)
    requires Sound(initial, m)
    ensures Safe(m.fs)
  {
  }

  lemma SoundCrash(initial: Config, m: Moment, after: Fs)
    requires Sound(initial, m) && Crashes(m.fs, after)
    ensures BootsAccounted(initial, m, after)
  {
    CrashReads(m.fs, after);
    hide Accounted, MayBoot;
  }

  /** More accounted operations account for no less. */
  lemma AccountedLater(initial: Config, m: Moment, op: Op, cfg: Config)
    requires m.inFlight.None? && m.durable <= |m.done| && Accounted(initial, m, cfg)
    ensures Accounted(initial, m.(done := m.done + [op]), cfg)
    ensures Accounted(initial, m.(inFlight := Some(op)), cfg)
  {
    var n: nat :| m.durable <= n <= |m.done| && cfg == Effects(initial, m.done[..n]);
    assert (m.done + [op])[..n] == m.done[..n];
  }

  /** A write passes only through sound states, with its operation in flight. */
  lemma TrailIsSound(initial: Config, m: Moment, op: Op, fs: Fs, target: Config)
    requires Sound(initial, m) && m.inFlight.None? && Allowed(m.fs, target, fs)
    requires target == Effects(initial, m.done + [op])
    ensures Sound(initial, m.(fs := fs, inFlight := Some(op)))
  {
    forall c | MayBoot(fs, c)
      ensures Accounted(initial, m.(fs := fs, inFlight := Some(op)), c)
    {
      if c != target {
        AccountedLater(initial, m, op, c);
      }
    }
  }

  /** How an operation leaves the disk: as good as before, possibly done, or done. */
  lemma EndIsSound(initial: Config, m: Moment, op: Op, fs: Fs, target: Config)
    requires Sound(initial, m) && m.inFlight.None? && Allowed(m.fs, target, fs)
    requires target == Effects(initial, m.done + [op])
    ensures Unmoved(m.fs, fs) ==> Sound(initial, m.(fs := fs))
    ensures Sound(initial, m.(fs := fs, done := m.done + [op]))
    ensures Only(fs, target) ==> Sound(initial, m.(fs := fs, done := m.done + [op], durable := |m.done| + 1))
  {
    var done := m.done + [op];
    assert done[..|done|] == done;
    forall c | MayBoot(fs, c)
      ensures Accounted(initial, m.(fs := fs, done := done), c)
    {
      if c == target {
        assert c == Effects(initial, done[..|done|]);
      } else {
        AccountedLater(initial, m, op, c);
      }
    }
    if Only(fs, target) {
      assert target == Effects(initial, done[..|done|]);
    }
  }

  /** What an update leaves behind while its write is out on a worker thread. */
  datatype Pending = Pending(patch: Patch, result: Stored)

  datatype Move = Begin(patch: Patch, canRename: bool) | Finish(refusal: Option<Refusal>) | Erase(refusal: Option<Refusal>)

  /** Which operations a schedule carries out, in lock order, and how many of them are
      there to stay; a move that finds the lock taken waits, so nothing happens. */
  datatype Schedule = Schedule(inFlight: Option<Patch>, completed: seq<Op>, durable: nat)

  /** The operation that a move carries to the disk. */
  function Carried(s: Schedule, move: Move): Option<Op> {
    match move
    case Begin(_, _) => None
    case Finish(_) => if s.inFlight.Some? then Some(Update(s.inFlight.value)) else None
    case Erase(_) => if s.inFlight.None? then Some(Reset) else None
  }

  function Step(s: Schedule, move: Move): Schedule {
    match move
    case Begin(patch, _) => if s.inFlight.None? then s.(inFlight := Some(patch)) else s
    case Finish(refusal) => if s.inFlight.None? then s else Settled(s, Update(s.inFlight.value), Landed(refusal), refusal)
    case Erase(refusal) => if s.inFlight.Some? then s else Settled(s, Reset, refusal != Some(Unlink), refusal)
  }

  function Settled(s: Schedule, op: Op, landed: bool, refusal: Option<Refusal>): Schedule {
    if !landed then s.(inFlight := None)
    else Schedule(None, s.completed + [op], if refusal == Some(SyncDir) then s.durable else |s.completed| + 1)
  }

  function Play(moves: seq<Move>): Schedule {
    if moves == [] then Schedule(None, [], 0) else Step(Play(moves[..|moves| - 1]), moves[|moves| - 1])
  }

  lemma PlayLast(moves: seq<Move>, i: nat)
    requires i < |moves|
    ensures Play(moves[..i + 1]) == Step(Play(moves[..i]), moves[i])
  {
    assert moves[..i + 1][..i] == moves[..i];
  }

  /** A moment between two moves of a schedule, or in the midst of its next one. */
  ghost predicate AmidMove(moves: seq<Move>, i: nat, m: Moment)
    requires i <= |moves|
  {
    var s := Play(moves[..i]);
    && m.done == s.completed && m.durable == s.durable
    && (m.inFlight.Some? ==> i < |moves| && m.inFlight == Carried(s, moves[i]))
  }

  ghost predicate Amid(moves: seq<Move>, m: Moment) {
    exists i | 0 <= i <= |moves| :: AmidMove(moves, i, m)
  }

  /** The store's lock protocol over the disk, one method per stretch between two awaits. */
  class LockedStore {
    const disk: ConfigStore
    var holder: Option<Pending>
    ghost const initial: Config
    /** Operations carried out, in the order they took the lock, and how many of them no
        power cut can undo. */
    ghost var done: seq<Op>
    ghost var durable: nat
    /** Every moment the disk has passed through. */
    ghost var journey: seq<Moment>

    constructor (disk: ConfigStore)
      requires Safe(disk.fs) && Only(disk.fs, ReadFs(disk.fs))
      ensures Valid() && this.disk == disk && initial == ReadFs(disk.fs) && holder.None?
      ensures done == [] && durable == 0 && journey == [Here()]
    {
      this.disk, holder := disk, None;
      initial, done, durable := ReadFs(disk.fs), [], 0;
      journey := [Moment(disk.fs, [], 0, None)];
      new;
      StartIsSound(disk.fs);
    }

    ghost function Here(): Moment
      reads this, disk
    {
      Moment(disk.fs, done, durable, None)
    }

    /** The file holds what the completed operations leave one after another, an update
        in flight has merged into exactly that, and no moment was ever unsound. */
    ghost predicate Valid()
      reads this, disk
    {
      && Sound(initial, Here())
      && ReadFs(disk.fs) == Effects(initial, done)
      && (holder.Some? ==> holder.value.result == Merge(Effects(initial, done), holder.value.patch))
      && (forall k | 0 <= k < |journey| :: Sound(initial, journey[k]))
      && journey != [] && journey[|journey| - 1] == Here()
    }

    /** The store is where the schedule so far puts it. */
    ghost predicate Follows(s: Schedule)
      reads this
    {
      && done == s.completed && durable == s.durable
      && s.inFlight == if holder.None? then None else Some(holder.value.patch)
    }

    /** `update` up to its await: take the lock, read, merge. False while another
        operation holds the lock. */
    method BeginUpdate(patch: Patch, canRename: bool) returns (entered: bool)
      requires Valid()
      modifies disk, `holder, `journey
      ensures Valid() && entered == old(holder).None?
      ensures if entered then holder.Some? && holder.value.patch == patch else holder == old(holder)
      ensures journey == old(journey) + [Here()]
    {
      entered := holder.None?;
      if entered {
        var cfg := disk.Read(canRename);
        holder := Some(Pending(patch, Merge(cfg, patch)));
      }
      journey := journey + [Here()];
    }

    /** The worker thread's write returns or raises, and the lock is released. */
    method FinishUpdate(spare: Inode, refusal: Option<Refusal>) returns (ok: bool)
      requires Valid() && holder.Some? && spare !in disk.fs.files
      modifies disk, this
      ensures Valid() && holder.None?
      ensures ok <==> refusal !in {Some(OpenTmp), Some(WriteTmp), Some(SyncTmp), Some(ReplaceFile), Some(SyncDir)}
      ensures done == if ok || refusal == Some(SyncDir) then old(done) + [Update(old(holder).value.patch)] else old(done)
      ensures durable == if ok then |done| else old(durable)
      ensures journey == old(journey) + Passed(old(Here()), Update(old(holder).value.patch), disk.trail) + [Here()]
    {
      hide Safe, MayBoot, Accounted, Only, Unmoved, Effects, ReadFs, Merge, Meaning;
      ghost var m, op := Here(), Update(holder.value.patch);
      EffectsLast(initial, done, op);
      assert Meaning(Json(holder.value.result)) == Effects(initial, done + [op]);
      ok := disk.Write(holder.value.result, spare, refusal);
      holder := None;
      Settle(m, op, Landed(refusal), ok);
    }

    /** `reset`, which awaits nothing while it holds the lock. */
    method ResetFile(refusal: Option<Refusal>) returns (entered: bool)
      requires Valid()
      modifies disk, this
      ensures Valid() && entered == old(holder).None? && holder == old(holder)
      ensures done == if entered && refusal != Some(Unlink) then old(done) + [Reset] else old(done)
      ensures durable == if entered && refusal !in {Some(Unlink), Some(SyncDir)} then |done| else old(durable)
      ensures journey == if entered then old(journey) + Passed(old(Here()), Reset, disk.trail) + [Here()] else old(journey)
    {
      hide Safe, MayBoot, Accounted;
      entered := holder.None?;
      if entered {
        ghost var m := Here();
        EffectsLast(initial, done, Reset);
        var ok := disk.Reset(refusal);
        Settle(m, Reset, refusal != Some(Unlink), ok);
      }
    }

    /** One move of a schedule. */
    method Make(moves: seq<Move>, i: nat)
      requires i < |moves| && Valid() && Follows(Play(moves[..i])) && forall m | m in journey :: Amid(moves, m)
      modifies disk, this
      ensures Valid() && Follows(Play(moves[..i + 1])) && forall m | m in journey :: Amid(moves, m)
    {
      hide Safe, Sound, MayBoot, Accounted, Effects, Amid, ReadFs, Merge;
      ghost var was := Here();
      PlayLast(moves, i);
      PlayAmid(moves, i, was);
      match moves[i] {
        case Begin(patch, canRename) =>
          var entered := BeginUpdate(patch, canRename);
        case Finish(refusal) =>
          if holder.Some? {
            var spare := FreshInode(disk.fs.files);
            ghost var patch := holder.value.patch;
            var ok := FinishUpdate(spare, refusal);
            PassedAmid(moves, i, was, Update(patch), disk.trail);
          }
        case Erase(refusal) =>
          var entered := ResetFile(refusal);
          if entered {
            PassedAmid(moves, i, was, Reset, disk.trail);
          }
      }
      PlayAmid(moves, i + 1, Here());
    }

    /** Account for the operation that has just left the disk. */
    ghost method Settle(m: Moment, op: Op, landed: bool, settled: bool)
      requires m == Moment(disk.before, done, durable, None) && Sound(initial, m) && holder.None?
      requires forall k | 0 <= k < |journey| :: Sound(initial, journey[k])
      requires disk.Atomic() && disk.target == Effects(initial, done + [op])
      requires ReadFs(disk.fs) == if landed then disk.target else Effects(initial, done)
      requires settled ==> landed && Only(disk.fs, disk.target)
      requires !landed ==> Unmoved(disk.before, disk.fs)
      modifies `done, `durable, `journey
      ensures Valid()
      ensures done == if landed then old(done) + [op] else old(done)
      ensures durable == if settled then |done| else old(durable)
      ensures journey == old(journey) + Passed(m, op, disk.trail) + [Here()]
    {
      hide Safe, MayBoot, Accounted;
      forall k | 0 <= k < |disk.trail|
        ensures Sound(initial, Passed(m, op, disk.trail)[k])
      {
        TrailIsSound(initial, m, op, disk.trail[k], disk.target);
      }
      EndIsSound(initial, m, op, disk.fs, disk.target);
      journey := journey + Passed(m, op, disk.trail);
      if landed {
        done := done + [op];
      }
      if settled {
        durable := |done|;
      }
      journey := journey + [Here()];
    }
  }

  /** The moments of an operation under way. */
  ghost function Passed(m: Moment, op: Op, trail: seq<Fs>): (ms: seq<Moment>)
    ensures |ms| == |trail|
  {
    seq(|trail|, k requires 0 <= k < |trail| => m.(fs := trail[k], inFlight := Some(op)))
  }

  lemma StartIsSound(fs: Fs)
    requires Safe(fs) && Only(fs, ReadFs(fs))
    ensures Sound(ReadFs(fs), Moment(fs, [], 0, None))
  {
    assert Effects(ReadFs(fs), [][..0]) == ReadFs(fs);
  }

  lemma PlayAmid(moves: seq<Move>, i: nat, m: Moment)
    requires i <= |moves| && m.inFlight.None?
    requires m.done == Play(moves[..i]).completed && m.durable == Play(moves[..i]).durable
    ensures Amid(moves, m)
  {
    assert AmidMove(moves, i, m);
  }

  lemma PassedAmid(moves: seq<Move>, i: nat, m: Moment, op: Op, trail: seq<Fs>)
    requires i < |moves| && m.inFlight.None? && AmidMove(moves, i, m) && Carried(Play(moves[..i]), moves[i]) == Some(op)
    ensures forall x | x in Passed(m, op, trail) :: Amid(moves, x)
  {
    forall x | x in Passed(m, op, trail)
      ensures AmidMove(moves, i, x)
    {
    }
  }

  // ---- What the operations mean, field by field ---------------------------

  /** Sending null for the name or the bitrate leaves a file that no longer parses. */
  predicate Quiet(op: Op) {
    op.Update? && !op.patch.name.Null? && !op.patch.bitrate.Null?
  }

  /** An update that nulls neither required field changes exactly the fields it sends,
      to the values it sends; any other leaves the defaults, and so does a reset. */
  lemma UpdateMeans(cfg: Config, ops: seq<Op>, op: Op)
    ensures var was, after := Effects(cfg, ops), Effects(cfg, ops + [op]);
            if !Quiet(op) then after == Config("PartyBox", 320, None)
            else
              && (if op.patch.name.Absent? then after.name == was.name else op.patch.name == Sent(after.name))
              && (if op.patch.bitrate.Absent? then after.bitrate == was.bitrate else op.patch.bitrate == Sent(after.bitrate))
              && match op.patch.address
                 case Absent => after.address == was.address
                 case Sent(v) => after.address == Some(v)
                 case Null => after.address == None
  {
    EffectsLast(cfg, ops, op);
    hide Effects;
  }

  /** The address an update leaves, once no later operation touches it. */
  lemma {:induction false} AddressKept(cfg: Config, ops: seq<Op>, later: seq<Op>)
    requires forall i | 0 <= i < |later| :: Quiet(later[i]) && later[i].patch.address.Absent?
    ensures Effects(cfg, ops + later).address == Effects(cfg, ops).address
    decreases |later|
  {
    if later == [] {
      assert ops + later == ops;
    } else {
      var n := |later| - 1;
      assert ops + later == (ops + later[..n]) + [later[n]];
      AddressKept(cfg, ops, later[..n]);
      UpdateMeans(cfg, ops + later[..n], later[n]);
    }
  }

  /** Likewise the portal's own fields. */
  lemma {:induction false} PortalFieldsKept(cfg: Config, ops: seq<Op>, later: seq<Op>)
    requires forall i | 0 <= i < |later| :: Quiet(later[i]) && later[i].patch.name.Absent? && later[i].patch.bitrate.Absent?
    ensures Effects(cfg, ops + later).name == Effects(cfg, ops).name
    ensures Effects(cfg, ops + later).bitrate == Effects(cfg, ops).bitrate
    decreases |later|
  {
    if later == [] {
      assert ops + later == ops;
    } else {
      var n := |later| - 1;
      assert ops + later == (ops + later[..n]) + [later[n]];
      PortalFieldsKept(cfg, ops, later[..n]);
      UpdateMeans(cfg, ops + later[..n], later[n]);
    }
  }

  /** The i-th operation sends values that no later one touches. */
  predicate NameStands(ops: seq<Op>, i: nat, v: string)
    requires i < |ops|
  {
    Quiet(ops[i]) && ops[i].patch.name == Sent(v)
    && forall j | i < j < |ops| :: Quiet(ops[j]) && ops[j].patch.name.Absent?
  }

  predicate BitrateStands(ops: seq<Op>, i: nat, v: Bitrate)
    requires i < |ops|
  {
    Quiet(ops[i]) && ops[i].patch.bitrate == Sent(v)
    && forall j | i < j < |ops| :: Quiet(ops[j]) && ops[j].patch.bitrate.Absent?
  }

  predicate AddressStands(ops: seq<Op>, i: nat, v: string)
    requires i < |ops|
  {
    Quiet(ops[i]) && ops[i].patch.address == Sent(v)
    && forall j | i < j < |ops| :: Quiet(ops[j]) && ops[j].patch.address.Absent?
  }

  /** No update is lost: the settings hold every value that was sent and stands. */
  ghost predicate NothingLost(ops: seq<Op>, cfg: Config) {
    && (forall i, v | 0 <= i < |ops| && NameStands(ops, i, v) :: cfg.name == v)
    && (forall i, v | 0 <= i < |ops| && BitrateStands(ops, i, v) :: cfg.bitrate == v)
    && (forall i, v | 0 <= i < |ops| && AddressStands(ops, i, v) :: cfg.address == Some(v))
  }

  lemma {:induction false} EffectsLoseNothing(cfg: Config, ops: seq<Op>)
    ensures NothingLost(ops, Effects(cfg, ops))
  {
    if ops != [] {
      var n := |ops| - 1;
      var init := ops[..n];
      EffectsLoseNothing(cfg, init);
      UpdateMeans(cfg, init, ops[n]);
      assert init + [ops[n]] == ops;
      hide Effects;
      assert forall i, v | 0 <= i < n && NameStands(ops, i, v) :: NameStands(init, i, v);
      assert forall i, v | 0 <= i < n && BitrateStands(ops, i, v) :: BitrateStands(init, i, v);
      assert forall i, v | 0 <= i < n && AddressStands(ops, i, v) :: AddressStands(init, i, v);
    }
  }

  predicate Disjoint(p: Patch, q: Patch) {
    && (p.name.Absent? || q.name.Absent?) && (p.bitrate.Absent? || q.bitrate.Absent?)
    && (p.address.Absent? || q.address.Absent?)
  }

  /** Updates that touch different fields can come in either order. */
  lemma DisjointUpdatesCommute(cfg: Config, ops: seq<Op>, p: Patch, q: Patch)
    requires Quiet(Update(p)) && Quiet(Update(q)) && Disjoint(p, q)
    ensures Effects(cfg, ops + [Update(p)] + [Update(q)]) == Effects(cfg, ops + [Update(q)] + [Update(p)])
  {
    hide Effects;
    UpdateMeans(cfg, ops, Update(p));
    UpdateMeans(cfg, ops, Update(q));
    UpdateMeans(cfg, ops + [Update(p)], Update(q));
    UpdateMeans(cfg, ops + [Update(q)], Update(p));
  }

  method FreshInode(files: map<Inode, File>) returns (spare: Inode)
    ensures spare !in files
  {
    spare := 0;
    var left := files.Keys;
    while left != {}
      invariant left <= files.Keys && forall n | n in files :: n in left || n < spare
    {
      var n :| n in left;
      left, spare := left - {n}, if n < spare then spare else n + 1;
    }
  }

  /** Any schedule at all, with writes failing wherever they like, leaves what running
      its completed operations one after another leaves; and a power cut at any moment
      on the way boots into the outcome of the operations completed by then, with or
      without the one in flight, on a disk the next run can start from. */
  method Interleave(fs: Fs, moves: seq<Move>) returns (final: Fs, ghost journey: seq<Moment>)
    requires Safe(fs) && Only(fs, ReadFs(fs))
    ensures Safe(final) && ReadFs(final) == Effects(ReadFs(fs), Play(moves).completed)
    ensures NothingLost(Play(moves).completed, ReadFs(final))
    ensures journey != [] && journey[|journey| - 1].fs == final
    ensures forall m | m in journey :: Amid(moves, m)
    ensures forall m, after | m in journey && Crashes(m.fs, after) :: BootsAccounted(ReadFs(fs), m, after)
  {
    ghost var initial := ReadFs(fs);
    hide Safe, Only, Sound, Effects, Amid, Step, BootsAccounted, ReadFs, Crashes, NothingLost;
    EffectsLoseNothing(initial, Play(moves).completed);
    var disk := new ConfigStore(fs);
    var store := new LockedStore(disk);
    PlayAmid(moves, 0, store.Here());
    for i := 0 to |moves|
      invariant store.Valid() && store.initial == initial && fresh(store) && fresh(store.disk)
      invariant store.Follows(Play(moves[..i]))
      invariant forall m | m in store.journey :: Amid(moves, m)
    {
      store.Make(moves, i);
    }
    assert moves[..|moves|] == moves;
    final, journey := store.disk.fs, store.journey;
    SoundIsSafe(initial, store.Here());
    forall m, after | m in journey && Crashes(m.fs, after)
      ensures BootsAccounted(initial, m, after)
    {
      SoundCrash(initial, m, after);
    }
  }
}
