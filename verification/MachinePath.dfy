/** The machine's PATH settings: a saved command with a revision, the PATH it last gave, and the effective
    PATH, kept in memory and in a file that agree. Running the command, writing the file and the clock are
    given as what they yield. */
module MachinePath {
  import opened Options
  import opened Characters
  import Utf8

  const MAX_COMMAND: nat := 16 * 1024
  const MAX_PATH: nat := 64 * 1024
  const MAX_KEY: nat := 128
  const MAX_RECEIPTS: nat := 128
  const MAX_REVISION: nat := 0xffff_ffff_ffff_ffff

  datatype Saved = Saved(command: string, revision: nat, lastGoodPath: Option<string>,
                         resolvedCommand: Option<string>, resolvedAt: Option<string>)

  const UNSAVED := Saved("", 0, None, None, None)

  datatype Source = Inherited | LastGood | Resolved

  datatype Problem = CannotRead | InvalidInheritedCommand | NotPersisted | Unresolved(reason: string)

  /** What a client is told. */
  datatype View = View(command: string, revision: nat, effective: Option<string>, source: Source,
                       resolvedCommand: Option<string>, resolvedAt: Option<string>, error: Option<Problem>)

  /** What a key was used for: the expected revision, and the command to save, or none for a sync. */
  datatype Identity = Identity(revision: nat, command: Option<string>)

  datatype Receipt = Receipt(identity: Identity, view: View)

  datatype Settings = Settings(saved: Saved, source: Source, effective: Option<string>, error: Option<Problem>,
                               loadFailed: bool)

  datatype PathState = PathState(settings: Settings, receipts: map<string, Receipt>, disk: Option<Saved>)

  /** Not blank, on one line, without NUL, and at most 64 KiB. */
  predicate ValidPath(path: string) {
    && !IsBlank(path)
    && '\n' !in path && '\r' !in path && '\0' !in path && Utf8.ByteLength(path) <= MAX_PATH
  }

  predicate ValidCommand(command: string) {
    Utf8.ByteLength(command) <= MAX_COMMAND && '\0' !in command
  }

  function Kept(path: Option<string>): Option<string> {
    if path.Some? && ValidPath(path.value) then path else None
  }

  function ViewOf(s: Settings): View {
    View(s.saved.command, s.saved.revision, s.effective, s.source, s.saved.resolvedCommand, s.saved.resolvedAt, s.error)
  }

  // ----- loading

  datatype Content = Missing | Unreadable | Holds(saved: Saved)

  /** Only the resolution of the same command is taken over from the local cache. */
  function Localised(saved: Saved, cache: Content): Saved {
    if cache.Holds? && cache.saved.command == saved.command && cache.saved.resolvedCommand == Some(saved.command)
    then saved.(lastGoodPath := cache.saved.lastGoodPath, resolvedCommand := cache.saved.resolvedCommand,
                resolvedAt := cache.saved.resolvedAt)
    else saved.(lastGoodPath := None, resolvedCommand := None, resolvedAt := None)
  }

  function Load(file: Content, cache: Content, readOnly: bool, inherited: Option<string>): Settings {
    var read := if file.Holds? then file.saved else UNSAVED;
    var saved := if readOnly then Localised(read, cache) else read;
    var error :=
      if readOnly && !ValidCommand(saved.command) then Some(InvalidInheritedCommand)
      else if file.Unreadable? || (file.Missing? && readOnly) then Some(CannotRead)
      else None;
    var lastGood := Kept(saved.lastGoodPath);
    Settings(
      saved,
      if saved.command != "" && lastGood.Some? then LastGood else Inherited,
      if saved.command != "" && lastGood.Some? then lastGood else inherited,
      error,
      error.Some?)
  }

  // ----- what every operation keeps

  /** An empty command means that the inherited PATH is effective; so does the source, which otherwise says
      that the last good PATH is. */
  predicate SoundSettings(s: Settings, inherited: Option<string>) {
    && (s.saved.command == "" ==> s.source == Inherited)
    && (s.source == Inherited ==> s.effective == inherited)
    && (s.source != Inherited ==>
          s.effective.Some? && ValidPath(s.effective.value) && s.effective == s.saved.lastGoodPath)
  }

  /** The file holds the settings in memory, or nothing was ever saved. */
  predicate Agrees(disk: Option<Saved>, saved: Saved) {
    disk == Some(saved) || (disk.None? && saved == UNSAVED)
  }

  /** The settings are sound and on disk as they are in memory. A read-only service, which reads its command
      elsewhere, writes them down with its first sync that works. */
  ghost predicate Good(t: PathState, readOnly: bool, inherited: Option<string>) {
    && SoundSettings(t.settings, inherited)
    && |t.receipts| <= MAX_RECEIPTS
    && (!t.settings.loadFailed && !readOnly ==> Agrees(t.disk, t.settings.saved))
    && (t.settings.source == Resolved ==> t.disk == Some(t.settings.saved))
    && (t.settings.source == Resolved && readOnly ==>
          t.settings.saved.resolvedCommand == Some(t.settings.saved.command))
  }

  /** A command gave a PATH that can be used. */
  predicate HasPath(saved: Saved) {
    saved.lastGoodPath.Some? && ValidPath(saved.lastGoodPath.value)
  }

  /** What is loaded: the file as it is, or, read-only, its command with what the local cache knows of that command.
      A PATH that the command gave is effective, and otherwise the inherited one. */
  lemma LoadedAs(file: Content, cache: Content, readOnly: bool, inherited: Option<string>)
    ensures var s := Load(file, cache, readOnly, inherited);
            var read := if file.Holds? then file.saved else UNSAVED;
            && s.saved.command == read.command && s.saved.revision == read.revision
            && (!readOnly ==> s.saved == read)
            && (s.source == LastGood <==> s.saved.command != "" && HasPath(s.saved))
            && (s.source != LastGood ==> s.source == Inherited && s.effective == inherited)
            && (s.source == LastGood ==> s.effective == s.saved.lastGoodPath)
            && (s.loadFailed <==> s.error.Some?)
            && (s.loadFailed <==>
                  file.Unreadable? || (readOnly && (file.Missing? || !ValidCommand(read.command))))
    ensures var s := Load(file, cache, true, inherited);
            var known := cache.Holds? && cache.saved.command == s.saved.command
                         && cache.saved.resolvedCommand == Some(s.saved.command);
            && s.saved.lastGoodPath == (if known then cache.saved.lastGoodPath else None)
            && s.saved.resolvedAt == (if known then cache.saved.resolvedAt else None)
            && (s.saved.resolvedCommand == if known then Some(s.saved.command) else None)
  {
  }

  lemma LoadIsSound(file: Content, cache: Content, readOnly: bool, inherited: Option<string>)
    ensures SoundSettings(Load(file, cache, readOnly, inherited), inherited)
  {
  }

  // ----- changes

  datatype Resolution = Path(path: string) | Failure(reason: string)

  /** What the outside world does during a change. */
  datatype World = World(persists: bool, resolution: Resolution, now: string)

  datatype Call = Call(key: string, revision: nat, command: Option<string>)

  datatype Reply =
    | Ok(view: View) | BadKey | BadCommand | ReadOnly | KeyReused | LoadFailed | Stale | Exhausted | NotSaved
    | NothingToSync

  predicate Wellformed(call: Call, readOnly: bool) {
    && call.key != "" && Utf8.ByteLength(call.key) <= MAX_KEY
    && (call.command.Some? ==> ValidCommand(call.command.value) && !readOnly)
  }

  /** A call with a new key is carried out. */
  predicate Accepted(t: PathState, call: Call, readOnly: bool, world: World) {
    && Wellformed(call, readOnly) && !t.settings.loadFailed && t.settings.saved.revision == call.revision
    && if call.command.Some? then call.revision < MAX_REVISION && world.persists else t.settings.saved.command != ""
  }

  /** The settings after a save: the command and the next revision; an empty one restores the inherited PATH. */
  ghost predicate SavedAs(s: Settings, command: string, s': Settings, inherited: Option<string>) {
    && s'.saved == s.saved.(command := command, revision := s.saved.revision + 1)
    && s'.loadFailed == s.loadFailed
    && if command == "" then s'.effective == inherited && s'.source == Inherited && s'.error.None?
       else s'.effective == s.effective && s'.source == s.source && s'.error == s.error
  }

  /** The settings after a sync: the new PATH if the command gave one and it was written down; otherwise
      only the error changes. */
  ghost predicate SyncedAs(s: Settings, world: World, s': Settings) {
    if world.resolution.Path? && world.persists then
      && s'.saved == s.saved.(lastGoodPath := Some(world.resolution.path), resolvedCommand := Some(s.saved.command),
                              resolvedAt := Some(world.now))
      && s'.effective == Some(world.resolution.path) && s'.source == Resolved
      && s'.error.None? && s'.loadFailed == s.loadFailed
    else
      s'.error.Some? && s' == s.(error := s'.error)
  }

  /** The reply to a malformed call. A read-only service refuses every save, even one it could replay. */
  ghost predicate BadRequest(call: Call, readOnly: bool, reply: Reply) {
    var goodKey := call.key != "" && Utf8.ByteLength(call.key) <= MAX_KEY;
    var goodCommand := call.command.Some? ==> ValidCommand(call.command.value);
    && reply in {BadKey, BadCommand, ReadOnly}
    && (reply.BadKey? <==> !goodKey)
    && (reply.BadCommand? <==> goodKey && !goodCommand)
  }

  /** The reply to a call that is not accepted. */
  ghost predicate Rejection(t: PathState, call: Call, reply: Reply) {
    && reply in {LoadFailed, Stale, Exhausted, NotSaved, NothingToSync}
    && (reply.LoadFailed? <==> t.settings.loadFailed)
    && (reply.Stale? <==> !t.settings.loadFailed && t.settings.saved.revision != call.revision)
    && (reply.Exhausted? ==> call.command.Some? && call.revision >= MAX_REVISION)
    && (reply.NotSaved? ==> call.command.Some? && call.revision < MAX_REVISION)
    && (reply.NothingToSync? ==> call.command.None?)
  }

  /** What a call may do. */
  ghost predicate Step(t: PathState, call: Call, world: World, t': PathState, reply: Reply, readOnly: bool,
                       inherited: Option<string>) {
    if !Wellformed(call, readOnly) then
      BadRequest(call, readOnly, reply) && t' == t
    else if call.key in t.receipts then
      && t' == t
      && reply == if t.receipts[call.key].identity == Identity(call.revision, call.command)
                  then Ok(t.receipts[call.key].view) else KeyReused
    else if !Accepted(t, call, readOnly, world) then
      Rejection(t, call, reply) && t' == t
    else
      && (if call.command.Some?
          then SavedAs(t.settings, call.command.value, t'.settings, inherited) && t'.disk == Some(t'.settings.saved)
          else SyncedAs(t.settings, world, t'.settings)
               && t'.disk == if world.resolution.Path? && world.persists then Some(t'.settings.saved) else t.disk)
      && reply == Ok(ViewOf(t'.settings))
      && var kept := if |t.receipts| >= MAX_RECEIPTS then map[] else t.receipts;
         t'.receipts == kept[call.key := Receipt(Identity(call.revision, call.command), reply.view)]
  }

  predicate Sensible(world: World) {
    world.resolution.Path? ==> ValidPath(world.resolution.path)
  }

  lemma SettingsStaySound(t: PathState, call: Call, world: World, t': PathState, reply: Reply, readOnly: bool,
                          inherited: Option<string>)
    requires SoundSettings(t.settings, inherited) && Step(t, call, world, t', reply, readOnly, inherited)
             && Sensible(world)
    ensures SoundSettings(t'.settings, inherited)
  {
  }

  /** Memory and file agree, and the rest stays sound, through every call. */
  lemma StepKeepsGood(t: PathState, call: Call, world: World, t': PathState, reply: Reply, readOnly: bool,
                      inherited: Option<string>)
    requires Good(t, readOnly, inherited) && Step(t, call, world, t', reply, readOnly, inherited) && Sensible(world)
    ensures Good(t', readOnly, inherited)
  {
    SettingsStaySound(t, call, world, t', reply, readOnly, inherited);
  }

  // ----- runs

  datatype Event = Event(call: Call, world: World, reply: Reply)

  ghost predicate IsRun(states: seq<PathState>, run: seq<Event>, readOnly: bool, inherited: Option<string>) {
    && |states| == |run| + 1
    && forall i :: 0 <= i < |run| ==>
         && Sensible(run[i].world)
         && Step(states[i], run[i].call, run[i].world, states[i + 1], run[i].reply, readOnly, inherited)
  }

  lemma {:induction false} RunKeepsGood(states: seq<PathState>, run: seq<Event>, readOnly: bool,
                                        inherited: Option<string>, i: nat)
    requires IsRun(states, run, readOnly, inherited) && Good(states[0], readOnly, inherited) && i <= |run|
    ensures Good(states[i], readOnly, inherited)
  {
    if i > 0 {
      RunKeepsGood(states, run, readOnly, inherited, i - 1);
      StepKeepsGood(states[i - 1], run[i - 1].call, run[i - 1].world, states[i], run[i - 1].reply, readOnly, inherited);
    }
  }

  /** A sync never changes the command or its revision, and no call lowers the revision. */
  lemma CommandChangesOnlyBySave(t: PathState, call: Call, world: World, t': PathState, reply: Reply, readOnly: bool,
                                 inherited: Option<string>)
    requires Step(t, call, world, t', reply, readOnly, inherited)
    ensures t'.settings.saved.revision >= t.settings.saved.revision
    ensures t'.settings.saved.revision == t.settings.saved.revision ==>
              t'.settings.saved.command == t.settings.saved.command
    ensures call.command.None? ==> t'.settings.saved.revision == t.settings.saved.revision
  {
  }

  lemma {:induction false} RevisionRises(states: seq<PathState>, run: seq<Event>, readOnly: bool,
                                         inherited: Option<string>, i: nat, j: nat)
    requires IsRun(states, run, readOnly, inherited) && i <= j <= |run|
    ensures states[i].settings.saved.revision <= states[j].settings.saved.revision
    ensures states[i].settings.saved.revision == states[j].settings.saved.revision ==>
              states[i].settings.saved.command == states[j].settings.saved.command
  {
    if i < j {
      RevisionRises(states, run, readOnly, inherited, i, j - 1);
      CommandChangesOnlyBySave(states[j - 1], run[j - 1].call, run[j - 1].world, states[j], run[j - 1].reply,
                               readOnly, inherited);
    }
  }

  /** The event saved a command, rather than replaying an earlier save. */
  ghost predicate Commits(states: seq<PathState>, run: seq<Event>, i: nat)
    requires i < |run| < |states|
  {
    states[i + 1].settings.saved.revision > states[i].settings.saved.revision
  }

  /** At most one save ever commits for an expected revision, even when its receipt is gone. */
  lemma OneSavePerRevision(states: seq<PathState>, run: seq<Event>, readOnly: bool, inherited: Option<string>, i: nat,
                           j: nat)
    requires IsRun(states, run, readOnly, inherited) && i < j < |run|
    requires Commits(states, run, i) && Commits(states, run, j)
    ensures run[i].call.revision < run[j].call.revision
  {
    RevisionRises(states, run, readOnly, inherited, i + 1, j);
    assert Step(states[i], run[i].call, run[i].world, states[i + 1], run[i].reply, readOnly, inherited);
    assert Step(states[j], run[j].call, run[j].world, states[j + 1], run[j].reply, readOnly, inherited);
  }

  /** What a client was told under a key stays what it is told again, until the receipts are full. */
  lemma ReceiptsLast(t: PathState, call: Call, world: World, t': PathState, reply: Reply, readOnly: bool,
                     inherited: Option<string>, key: string)
    requires Step(t, call, world, t', reply, readOnly, inherited) && key in t.receipts && |t.receipts| < MAX_RECEIPTS
    ensures key in t'.receipts && t'.receipts[key] == t.receipts[key]
  {
  }

  // ----- restarts

  /** The settings a restart finds, before it resolves the command again. */
  function Restarted(disk: Option<Saved>, inherited: Option<string>): Settings {
    Load(if disk.Some? then Holds(disk.value) else Missing, Missing, false, inherited)
  }

  /** A restart keeps everything saved. It keeps the effective PATH too, except when the inherited PATH is
      effective although a command and another, valid last good PATH are saved: the restart revives that
      PATH, even if another command gave it. */
  lemma RestartKeeps(t: PathState, inherited: Option<string>)
    requires Good(t, false, inherited) && !t.settings.loadFailed
    ensures Restarted(t.disk, inherited).saved == t.settings.saved && !Restarted(t.disk, inherited).loadFailed
    ensures Restarted(t.disk, inherited).effective == t.settings.effective
            <==> !(t.settings.source == Inherited && t.settings.saved.command != ""
                   && HasPath(t.settings.saved) && t.settings.saved.lastGoodPath != inherited)
  {
  }

  /** A read-only service that has synced finds its PATH in the cache after a restart, as long as the command it
      reads is still the one that gave the PATH; with any other command it falls back to the inherited PATH. */
  lemma ReadOnlyRestart(t: PathState, file: Saved, inherited: Option<string>)
    requires Good(t, true, inherited) && t.settings.source == Resolved && ValidCommand(file.command)
    ensures var after := Load(Holds(file), Holds(t.disk.value), true, inherited);
            && !after.loadFailed && after.saved.command == file.command && after.saved.revision == file.revision
            && after.effective == (if file.command == t.settings.saved.command then t.settings.effective else inherited)
  {
  }

  // ----- the service

  class MachinePathService {
    const readOnly: bool
    const inherited: Option<string>
    var saved: Saved
    var source: Source
    var effective: Option<string>
    var error: Option<Problem>
    var loadFailed: bool
    var receipts: map<string, Receipt>
    var disk: Option<Saved> // the file that settings are written to

    function Current(): PathState
      reads this
    {
      PathState(Settings(saved, source, effective, error, loadFailed), receipts, disk)
    }

    /** Loads the settings. A read-only service reads its command from `file` and writes to the cache. */
    constructor (file: Content, cache: Content, readOnly: bool, inherited: Option<string>)
      ensures this.readOnly == readOnly && this.inherited == inherited
      ensures Current().settings == Load(file, cache, readOnly, inherited) && receipts == map[]
      ensures Good(Current(), readOnly, inherited)
    {
      this.readOnly, this.inherited := readOnly, inherited;
      var s := Load(file, cache, readOnly, inherited);
      saved, source, effective, error, loadFailed := s.saved, s.source, s.effective, s.error, s.loadFailed;
      receipts := map[];
      var written := if readOnly then cache else file;
      disk := if written.Holds? then Some(written.saved) else None;
      new;
      LoadIsSound(file, cache, readOnly, inherited);
    }

    /** Runs the saved command and keeps the PATH it gives. */
    method Resolve(world: World)
      requires Good(Current(), readOnly, inherited) && Sensible(world)
      modifies this`saved, this`source, this`effective, this`error, this`disk
      ensures old(saved.command) == "" ==> Current() == old(Current())
      ensures old(saved.command) != "" ==>
                && SyncedAs(old(Current().settings), world, Current().settings)
                && disk == if world.resolution.Path? && world.persists then Some(saved) else old(disk)
      ensures Good(Current(), readOnly, inherited)
    {
      if saved.command == "" {
        return;
      }
      match world.resolution
      case Path(path) =>
        var next := saved.(lastGoodPath := Some(path), resolvedCommand := Some(saved.command),
                           resolvedAt := Some(world.now));
        if world.persists {
          disk := Some(next);
          saved, effective, source, error := next, Some(path), Resolved, None;
        } else {
          error := Some(NotPersisted);
        }
      case Failure(reason) =>
        error := Some(Unresolved(reason));
    }

    /** Writes the command down under the next revision. */
    method Save(command: string, persists: bool) returns (problem: Option<Reply>)
      modifies this`saved, this`source, this`effective, this`error, this`disk
      ensures problem == if old(saved.revision) >= MAX_REVISION then Some(Exhausted)
                         else if !persists then Some(NotSaved) else None
      ensures problem.Some? ==> Current() == old(Current())
      ensures problem.None? ==>
                SavedAs(old(Current().settings), command, Current().settings, inherited) && disk == Some(saved)
    {
      if saved.revision >= MAX_REVISION {
        return Some(Exhausted);
      }
      if !persists {
        return Some(NotSaved);
      }
      saved := saved.(command := command, revision := saved.revision + 1);
      disk := Some(saved);
      if command == "" {
        effective, source, error := inherited, Inherited, None;
      }
      return None;
    }

    /** Saves a command, or syncs with the saved one, at most once for its key while the receipt lasts. */
    method Change(call: Call, world: World) returns (reply: Reply)
      requires Good(Current(), readOnly, inherited) && Sensible(world)
      modifies this
      ensures Step(old(Current()), call, world, Current(), reply, readOnly, inherited)
      ensures Good(Current(), readOnly, inherited)
    {
      if call.key == "" || Utf8.ByteLength(call.key) > MAX_KEY {
        return BadKey;
      }
      if call.command.Some? && !ValidCommand(call.command.value) {
        return BadCommand;
      }
      if readOnly && call.command.Some? {
        return ReadOnly;
      }
      var identity := Identity(call.revision, call.command);
      if call.key in receipts {
        return if receipts[call.key].identity == identity then Ok(receipts[call.key].view) else KeyReused;
      }
      if loadFailed {
        return LoadFailed;
      }
      if saved.revision != call.revision {
        return Stale;
      }
      if call.command.Some? {
        var problem := Save(call.command.value, world.persists);
        if problem.Some? {
          return problem.value;
        }
      } else {
        if saved.command == "" {
          return NothingToSync;
        }
        Resolve(world);
      }
      var view := ViewOf(Current().settings);
      if |receipts| >= MAX_RECEIPTS {
        receipts := map[];
      }
      receipts := receipts[call.key := Receipt(identity, view)];
      return Ok(view);
    }
  }

  /** It does happen: after a sync, clearing the command and saving another one leaves the inherited PATH
      effective, until a restart revives the PATH of the first command. */
  method ClearThenSave(service: MachinePathService, clear: Call, save: Call, world: World)
    requires Good(service.Current(), false, service.inherited) && !service.readOnly && Sensible(world)
    requires service.source == Resolved && service.effective != service.inherited
    requires Accepted(service.Current(), clear, false, world) && clear.command == Some("")
             && |service.receipts| < MAX_RECEIPTS - 1
    requires Wellformed(save, false) && save.revision == clear.revision + 1 < MAX_REVISION && save.command.Some?
             && save.command.value != ""
    requires clear.key !in service.receipts && save.key !in service.receipts && clear.key != save.key
    modifies service
    ensures service.saved.command == save.command.value && service.effective == service.inherited
    ensures Restarted(service.disk, service.inherited).effective == old(service.effective)
  {
    ghost var before := service.Current();
    var first := service.Change(clear, world);
    assert SavedAs(before.settings, "", service.Current().settings, service.inherited);
    assert save.key !in service.receipts;
    ghost var cleared := service.Current();
    var second := service.Change(save, world);
    assert SavedAs(cleared.settings, save.command.value, service.Current().settings, service.inherited);
  }
}
