/**
 * Publishing, replacing and deleting character packs as a filesystem transaction. Directories are maps from names to
 * packs; a fault oracle says of every single operation, in order, whether it fails.
 */
module CharacterStorage {
  import opened Prelude

  type Id = nat

  datatype PackId = Builtin | Custom(id: Id)

  datatype Pack = Pack(assets: nat, manifest: nat)

  datatype Manifest = Manifest(id: Id, document: nat, valid: bool, attested: bool)

  datatype StateFile = StateFile(selected: PackId, updatedAt: nat, mappings: map<Id, nat>)

  /** Preview directories, and backups under fresh names. */
  datatype Name = Preview(token: nat) | Backup(serial: nat)

  datatype FsOp = Write | Rename | Sync | RollbackRename | ReadBack | Verify | Permission | Discard

  datatype StorageError =
    | InvalidManifest
    | NotAttested
    | AtomicWriteFailed
    | SyncFailed
    | IntegrityFailed
    | IdCollision
    | PermissionFailed
    | RenameFailed
    | PackNotFound
    | RollbackFailed

  /** A pack moved out of the library, and where it waits. */
  datatype Archived = Archived(id: Id, backup: Name)

  // ----- the state file -----------------------------------------------------------------------------------

  function Select(s: StateFile, pack: PackId, now: nat): StateFile {
    s.(selected := pack, updatedAt := now)
  }

  predicate SelectedAmong(s: StateFile, ids: set<Id>) {
    s.selected.Custom? && s.selected.id in ids
  }

  function ReplaceCustomPacks(s: StateFile, replaced: set<Id>, replacement: Id, now: nat): StateFile {
    (if SelectedAmong(s, replaced) then Select(s, Custom(replacement), now) else s).(mappings := s.mappings - replaced)
  }

  function RemoveCustomPack(s: StateFile, pack: Id, now: nat): StateFile {
    (if s.selected == Custom(pack) then Select(s, Builtin, now) else s).(mappings := s.mappings - {pack})
  }

  lemma ReplacementState(s: StateFile, replaced: set<Id>, replacement: Id, now: nat)
    ensures Select(ReplaceCustomPacks(s, replaced, replacement, now), Custom(replacement), now)
         == StateFile(Custom(replacement), now, s.mappings - replaced)
  {
  }

  /** Deleting a pack takes its mapping; another selection and its time stay, and only the pack's own gives way to the builtin one. */
  lemma DeletionState(s: StateFile, pack: Id, now: nat)
    ensures var s' := RemoveCustomPack(s, pack, now);
            && (s.selected == Custom(pack) ==> s'.selected == Builtin && s'.updatedAt == now)
            && (s.selected != Custom(pack) ==> s'.selected == s.selected && s'.updatedAt == s.updatedAt)
            && pack !in s'.mappings && s'.mappings.Keys == s.mappings.Keys - {pack}
            && forall other :: other in s'.mappings ==> s'.mappings[other] == s.mappings[other]
  {
  }

  /** The selection can be shown: it is the builtin pack or one in the library. */
  predicate Names(s: StateFile, library: map<Id, Pack>) {
    s.selected.Builtin? || s.selected.id in library
  }

  // ----- archived packs -----------------------------------------------------------------------------------

  function Ids(archived: seq<Archived>): set<Id> {
    set a | a in archived :: a.id
  }

  function Backups(archived: seq<Archived>): set<Name> {
    set a | a in archived :: a.backup
  }

  /** The archived packs are out of the library and wait under distinct names in the quarantine. */
  ghost predicate MovedOut(
    archived: seq<Archived>, library: map<Id, Pack>, quarantine: map<Name, Pack>, library': map<Id, Pack>, quarantine': map<Name, Pack>)
  {
    && (forall i, j :: 0 <= i < j < |archived| ==> archived[i].id != archived[j].id && archived[i].backup != archived[j].backup)
    && (forall i :: 0 <= i < |archived| ==> InBackup(archived[i], library, quarantine, quarantine'))
    && library' == library - Ids(archived)
    && quarantine' - Backups(archived) == quarantine
  }

  ghost predicate InBackup(a: Archived, library: map<Id, Pack>, quarantine: map<Name, Pack>, quarantine': map<Name, Pack>) {
    a.id in library && a.backup !in quarantine && a.backup in quarantine' && quarantine'[a.backup] == library[a.id]
  }

  lemma ArchiveOneMore(
    archived: seq<Archived>, library: map<Id, Pack>, quarantine: map<Name, Pack>, library': map<Id, Pack>, quarantine': map<Name, Pack>,
    next: Archived)
    requires MovedOut(archived, library, quarantine, library', quarantine')
    requires next.id in library' && next.backup !in quarantine'
    ensures MovedOut(archived + [next], library, quarantine, library' - {next.id}, quarantine'[next.backup := library'[next.id]])
  {
    var more := archived + [next];
    assert forall i :: 0 <= i < |archived| ==> more[i] == archived[i];
    forall i | 0 <= i < |archived| ensures archived[i].id != next.id && archived[i].backup != next.backup {
      assert InBackup(archived[i], library, quarantine, quarantine');
      assert archived[i] in archived;
    }
    assert Ids(more) == Ids(archived) + {next.id};
    assert Backups(more) == Backups(archived) + {next.backup};
    var quarantine'' := quarantine'[next.backup := library'[next.id]];
    forall i | 0 <= i < |more| ensures InBackup(more[i], library, quarantine, quarantine'') {
      if i < |archived| {
        assert InBackup(archived[i], library, quarantine, quarantine');
      }
    }
    assert quarantine'' - Backups(more) == quarantine;
  }

  lemma SplitLast(archived: seq<Archived>)
    requires archived != []
    ensures var front, last := archived[..|archived| - 1], archived[|archived| - 1];
            Ids(archived) == Ids(front) + {last.id} && Backups(archived) == Backups(front) + {last.backup}
  {
    assert archived == archived[..|archived| - 1] + [archived[|archived| - 1]];
  }

  /** In a duplicate-free list the last entry shares nothing with the others. */
  lemma LastIsAlone(archived: seq<Archived>)
    requires archived != []
    requires forall i, j :: 0 <= i < j < |archived| ==> archived[i].id != archived[j].id && archived[i].backup != archived[j].backup
    ensures var front, last := archived[..|archived| - 1], archived[|archived| - 1];
            last.id !in Ids(front) && last.backup !in Backups(front)
  {
    var front := archived[..|archived| - 1];
    forall a | a in front ensures a.id != archived[|archived| - 1].id && a.backup != archived[|archived| - 1].backup {
      var i :| 0 <= i < |front| && front[i] == a;
    }
  }

  /** Putting one removed key back is removing all the others. */
  lemma PutBack<K, V>(m: map<K, V>, m': map<K, V>, removed: set<K>, key: K)
    requires key in m && key !in removed && m' == m - (removed + {key})
    ensures m'[key := m[key]] == m - removed
  {
  }

  lemma RestoreLast(
    archived: seq<Archived>, library: map<Id, Pack>, quarantine: map<Name, Pack>, library': map<Id, Pack>, quarantine': map<Name, Pack>)
    requires archived != [] && MovedOut(archived, library, quarantine, library', quarantine')
    ensures var last := archived[|archived| - 1];
            && last.backup in quarantine' && last.id !in library'
            && MovedOut(archived[..|archived| - 1], library, quarantine, library'[last.id := quarantine'[last.backup]], quarantine' - {last.backup})
  {
    var front, last := archived[..|archived| - 1], archived[|archived| - 1];
    SplitLast(archived);
    LastIsAlone(archived);
    hide Ids, Backups;
    assert InBackup(last, library, quarantine, quarantine');
    PutBack(library, library', Ids(front), last.id);
    var quarantine'' := quarantine' - {last.backup};
    assert quarantine'' - Backups(front) == quarantine' - Backups(archived);
    forall i | 0 <= i < |front| ensures InBackup(front[i], library, quarantine, quarantine'') {
      assert InBackup(archived[i], library, quarantine, quarantine');
      assert archived[i].backup != last.backup;
    }
  }

  lemma BackupsAreExtra(
    archived: seq<Archived>, library: map<Id, Pack>, quarantine: map<Name, Pack>, library': map<Id, Pack>, quarantine': map<Name, Pack>)
    requires MovedOut(archived, library, quarantine, library', quarantine')
    ensures quarantine' - Backups(archived) == quarantine
  {
  }

  function IdSet(ids: seq<Id>): set<Id> {
    set id | id in ids
  }

  ghost predicate Archives(archived: seq<Archived>, packs: seq<Id>) {
    |archived| == |packs| && forall i :: 0 <= i < |packs| ==> archived[i].id == packs[i]
  }

  /** The archived ids are the listed packs, and all of them were in the library. */
  lemma MovedOutIds(
    archived: seq<Archived>, library: map<Id, Pack>, quarantine: map<Name, Pack>, library': map<Id, Pack>, quarantine': map<Name, Pack>,
    packs: seq<Id>)
    requires MovedOut(archived, library, quarantine, library', quarantine') && Archives(archived, packs)
    ensures Ids(archived) == IdSet(packs) && library' == library - IdSet(packs)
    ensures forall id :: id in packs ==> id in library
  {
    forall id ensures id in Ids(archived) <==> id in packs {
      if id in packs {
        var i :| 0 <= i < |packs| && packs[i] == id;
        assert archived[i] in archived;
      }
      if id in Ids(archived) {
        var a :| a in archived && a.id == id;
        var i :| 0 <= i < |archived| && archived[i] == a;
        assert packs[i] == id;
      }
    }
    forall id | id in packs ensures id in library {
      var i :| 0 <= i < |packs| && packs[i] == id;
      assert InBackup(archived[i], library, quarantine, quarantine');
    }
  }

  lemma MovedOutKeepsOthers(
    archived: seq<Archived>, library: map<Id, Pack>, quarantine: map<Name, Pack>, library': map<Id, Pack>, quarantine': map<Name, Pack>,
    packs: seq<Id>, other: Id)
    requires MovedOut(archived, library, quarantine, library', quarantine') && Archives(archived, packs)
    requires other in library && other !in packs
    ensures other in library' && library'[other] == library[other]
    ensures library' == library - IdSet(packs) && forall id :: id in packs ==> id in library
  {
    MovedOutIds(archived, library, quarantine, library', quarantine', packs);
  }

  lemma NothingMovedOut(library: map<Id, Pack>, quarantine: map<Name, Pack>, library': map<Id, Pack>, quarantine': map<Name, Pack>)
    requires MovedOut([], library, quarantine, library', quarantine')
    ensures library' == library && quarantine' == quarantine
  {
  }

  // ----- faults -------------------------------------------------------------------------------------------

  /** Whether the operation that is the `t`-th of all fails. */
  type Faults = (nat, FsOp) -> bool

  /** Between two readings of the clock, undoing a rename and reading the state back worked. */
  ghost predicate RollbackWorked(fails: Faults, from: nat, to: nat) {
    forall t :: from <= t < to ==> !fails(t, RollbackRename) && !fails(t, ReadBack)
  }

  /** Between two readings of the clock, no directory sync failed. */
  ghost predicate SyncWorked(fails: Faults, from: nat, to: nat) {
    forall t :: from <= t < to ==> !fails(t, Sync)
  }

  predicate BothSync(fails: Faults, t: nat) {
    !fails(t, Sync) && !fails(t + 1, Sync)
  }

  /** A publish that starts at `t` gets as far as the rename into the library. */
  predicate PublishRenames(fails: Faults, t: nat, manifest: Manifest, library: map<Id, Pack>) {
    && manifest.valid && manifest.attested && manifest.id !in library
    && !fails(t, Write) && !fails(t + 1, Rename) && !fails(t + 2, Sync)
    && !fails(t + 3, Verify) && !fails(t + 4, Sync) && !fails(t + 5, Permission) && !fails(t + 6, Rename)
  }

  predicate PublishSucceeds(fails: Faults, t: nat, manifest: Manifest, library: map<Id, Pack>) {
    PublishRenames(fails, t, manifest, library) && !fails(t + 7, Sync)
  }

  /** The first thing that stands in the way of a publish that starts at `t`, and the error for it. */
  ghost predicate PublishFails(fails: Faults, t: nat, manifest: Manifest, library: map<Id, Pack>, error: StorageError) {
    if !manifest.valid then error == InvalidManifest
    else if !manifest.attested then error == NotAttested
    else if fails(t, Write) || fails(t + 1, Rename) then error == AtomicWriteFailed
    else if fails(t + 2, Sync) then error == SyncFailed
    else if fails(t + 3, Verify) then error == IntegrityFailed
    else if fails(t + 4, Sync) then error == SyncFailed
    else if manifest.id in library then error == IdCollision
    else if fails(t + 5, Permission) then error == PermissionFailed
    else if fails(t + 6, Rename) then error == RenameFailed
    else fails(t + 7, Sync) && error == SyncFailed
  }

  ghost predicate RenamesWork(fails: Faults, from: nat, to: nat) {
    forall t :: from <= t < to ==> !fails(t, Rename)
  }

  /** The packs are there, each listed once, and moving them out from `t` on works. */
  ghost predicate ArchiveSucceeds(fails: Faults, t: nat, packs: seq<Id>, library: map<Id, Pack>) {
    && Distinct(packs) && (forall id :: id in packs ==> id in library)
    && RenamesWork(fails, t, t + |packs|) && BothSync(fails, t + |packs|)
  }

  /** A state write that starts at `t` is in place, synced or not. */
  predicate Persists(fails: Faults, t: nat) {
    !fails(t, Write) && !fails(t + 1, Rename)
  }

  /** When the syncs are due that follow moving `n` packs back after a state write that started at `t` did not take. */
  function UndoSync(fails: Faults, t: nat, n: nat): nat {
    (if fails(t, Write) then t + 2 else t + 3) + n
  }

  /** Replacing packs from `t` on takes effect; `same` tells that the state file already has the new contents. */
  ghost predicate ReplacementCommits(fails: Faults, t: nat, replaced: seq<Id>, library: map<Id, Pack>, same: bool) {
    ArchiveSucceeds(fails, t, replaced, library) && (same || Persists(fails, t + |replaced| + 2))
  }

  /** Replacing packs from `t` on fails at the state write, and then at a sync after moving them back. */
  ghost predicate ReplacementLeaves(fails: Faults, t: nat, replaced: seq<Id>, library: map<Id, Pack>, same: bool) {
    && ArchiveSucceeds(fails, t, replaced, library) && !same && !Persists(fails, t + |replaced| + 2)
    && !BothSync(fails, UndoSync(fails, t + |replaced| + 2, |replaced|))
  }

  /** Publishing and replacing from `t` on takes effect. */
  ghost predicate Commits(fails: Faults, t: nat, manifest: Manifest, replaced: seq<Id>, library: map<Id, Pack>, same: bool) {
    PublishSucceeds(fails, t, manifest, library) && ReplacementCommits(fails, t + 8, replaced, library, same)
  }

  /**
   * Publishing and replacing from `t` on fails and leaves the new pack in the library: the last sync of the publish fails,
   * or the state write does not take and a sync after moving the replaced packs back fails.
   */
  ghost predicate Leaves(fails: Faults, t: nat, manifest: Manifest, replaced: seq<Id>, library: map<Id, Pack>, same: bool) {
    || (PublishRenames(fails, t, manifest, library) && fails(t + 7, Sync))
    || (PublishSucceeds(fails, t, manifest, library) && ReplacementLeaves(fails, t + 8, replaced, library, same))
  }

  ghost predicate DiscardsWork(fails: Faults, from: nat, to: nat) {
    forall t :: from <= t < to ==> !fails(t, Discard)
  }

  /** Whatever the first quarantine holds is in the second one as well. */
  ghost predicate StillThere(quarantine: map<Name, Pack>, quarantine': map<Name, Pack>) {
    forall name :: name in quarantine ==> name in quarantine' && quarantine'[name] == quarantine[name]
  }

  lemma NoBackups()
    ensures Backups([]) == {}
  {
  }

  lemma RollbackWithin(fails: Faults, from: nat, to: nat, from': nat, to': nat)
    requires from <= from' && to' <= to
    ensures RollbackWorked(fails, from, to) ==> RollbackWorked(fails, from', to')
    ensures SyncWorked(fails, from, to) ==> SyncWorked(fails, from', to')
  {
  }

  lemma NothingArchived(library: map<Id, Pack>, quarantine: map<Name, Pack>, packs: seq<Id>, fails: Faults, t: nat)
    ensures MovedOut([], library, quarantine, library, quarantine)
    ensures Archives([], packs[..0]) && RenamesWork(fails, t, t)
  {
  }

  lemma ArchivesNext(archived: seq<Archived>, packs: seq<Id>, k: nat, next: Archived)
    requires k < |packs| && Archives(archived, packs[..k]) && next.id == packs[k]
    ensures Archives(archived + [next], packs[..k + 1])
  {
    assert packs[..k + 1] == packs[..k] + [packs[k]];
  }

  /** A pack that cannot be moved out next rules the whole list out. */
  lemma ListRuledOut(
    archived: seq<Archived>, library: map<Id, Pack>, quarantine: map<Name, Pack>, library': map<Id, Pack>, quarantine': map<Name, Pack>,
    packs: seq<Id>, fails: Faults, t: nat)
    requires MovedOut(archived, library, quarantine, library', quarantine') && |archived| < |packs|
    requires Archives(archived, packs[..|archived|]) && packs[|archived|] !in library'
    ensures !ArchiveSucceeds(fails, t, packs, library)
  {
    var next := packs[|archived|];
    if next in library {
      assert next in Ids(archived);
      var a :| a in archived && a.id == next;
      var i :| 0 <= i < |archived| && archived[i] == a;
      assert packs[i] == next;
    } else {
      assert next in packs;
    }
  }

  lemma NextRename(fails: Faults, t: nat, packs: seq<Id>, k: nat, library: map<Id, Pack>)
    requires k < |packs| && RenamesWork(fails, t, t + k)
    ensures if fails(t + k, Rename) then !ArchiveSucceeds(fails, t, packs, library) else RenamesWork(fails, t, t + k + 1)
  {
  }

  /** Packs that were moved out were listed once each and in the library. */
  lemma ListMovedOut(
    archived: seq<Archived>, library: map<Id, Pack>, quarantine: map<Name, Pack>, library': map<Id, Pack>, quarantine': map<Name, Pack>,
    packs: seq<Id>, fails: Faults, t: nat)
    requires MovedOut(archived, library, quarantine, library', quarantine') && Archives(archived, packs)
    requires RenamesWork(fails, t, t + |packs|)
    ensures ArchiveSucceeds(fails, t, packs, library) <==> BothSync(fails, t + |packs|)
  {
    MovedOutIds(archived, library, quarantine, library', quarantine', packs);
  }

  // ----- the storage --------------------------------------------------------------------------------------

  class Storage {
    const fails: Faults
    var clock: nat
    var library: map<Id, Pack>
    var quarantine: map<Name, Pack>
    var state: StateFile
    var nextSerial: nat

    /** Backups in the quarantine have used serial numbers: a new name is fresh. */
    ghost predicate Valid()
      reads this
    {
      forall name :: name in quarantine && name.Backup? ==> name.serial < nextSerial
    }

    /** After the start only previews lie in the quarantine. */
    constructor (fails: Faults, library: map<Id, Pack>, quarantine: map<Name, Pack>, state: StateFile)
      requires forall name :: name in quarantine ==> name.Preview?
      ensures this.fails == fails && this.library == library && this.quarantine == quarantine && this.state == state
      ensures clock == 0 && Valid()
    {
      this.fails, this.library, this.quarantine, this.state := fails, library, quarantine, state;
      clock, nextSerial := 0, 0;
    }

    /** One filesystem operation happens, or fails. */
    method Attempt(op: FsOp) returns (ok: bool)
      modifies this`clock
      ensures ok == !fails(old(clock), op) && clock == old(clock) + 1
    {
      ok := !fails(clock, op);
      clock := clock + 1;
    }

    /** Writing the state file: after the rename it is in place even if the directory sync fails. */
    method SaveState(next: StateFile) returns (r: Result<(), StorageError>)
      modifies this`clock, this`state
      ensures state == if Persists(fails, old(clock)) then next else old(state)
      ensures r.Ok? <==> Persists(fails, old(clock)) && !fails(old(clock) + 2, Sync)
      ensures clock == old(clock) + (if fails(old(clock), Write) then 1 else if fails(old(clock) + 1, Rename) then 2 else 3)
    {
      var written := Attempt(Write);
      if !written {
        return Err(AtomicWriteFailed);
      }
      var renamed := Attempt(Rename);
      if !renamed {
        return Err(AtomicWriteFailed);
      }
      state := next;
      var synced := Attempt(Sync);
      r := if synced then Ok(()) else Err(SyncFailed);
    }

    method LoadState() returns (r: Option<StateFile>)
      modifies this`clock
      ensures r == if fails(old(clock), ReadBack) then None else Some(state)
      ensures clock == old(clock) + 1
    {
      var read := Attempt(ReadBack);
      r := if read then Some(state) else None;
    }

    method SyncBoth() returns (r: Result<(), StorageError>)
      modifies this`clock
      ensures r.Ok? <==> BothSync(fails, old(clock))
      ensures r.Err? ==> r.error == SyncFailed && !SyncWorked(fails, old(clock), clock)
      ensures old(clock) < clock <= old(clock) + 2 && (r.Ok? ==> clock == old(clock) + 2)
    {
      var first := Attempt(Sync);
      if !first {
        return Err(SyncFailed);
      }
      var second := Attempt(Sync);
      r := if second then Ok(()) else Err(SyncFailed);
    }

    /** Puts the final manifest into the preview directory. */
    method WriteManifest(preview: Name, document: nat) returns (r: Result<(), StorageError>)
      requires Valid() && preview in quarantine
      modifies this`clock, this`quarantine
      ensures Valid() && quarantine.Keys == old(quarantine).Keys
      ensures r.Ok? ==> quarantine == old(quarantine)[preview := old(quarantine)[preview].(manifest := document)]
      ensures r.Ok? <==> Persists(fails, old(clock)) && !fails(old(clock) + 2, Sync)
      ensures r.Err? ==> r.error == if Persists(fails, old(clock)) then SyncFailed else AtomicWriteFailed
      ensures old(clock) < clock && (r.Ok? ==> clock == old(clock) + 3)
    {
      var written := Attempt(Write);
      if !written {
        return Err(AtomicWriteFailed);
      }
      var renamed := Attempt(Rename);
      if !renamed {
        return Err(AtomicWriteFailed);
      }
      quarantine := quarantine[preview := quarantine[preview].(manifest := document)];
      var synced := Attempt(Sync);
      r := if synced then Ok(()) else Err(SyncFailed);
    }

    /** Moves the preview into the library; a failing sync after the rename, and nothing else, leaves it there with an error. */
    method Publish(preview: Name, manifest: Manifest) returns (r: Result<(), StorageError>)
      requires Valid() && preview in quarantine
      modifies this`clock, this`library, this`quarantine
      ensures Valid()
      ensures r.Ok? <==> PublishSucceeds(fails, old(clock), manifest, old(library))
      ensures if PublishRenames(fails, old(clock), manifest, old(library))
              then Published(old(library), old(quarantine), preview, manifest) && clock == old(clock) + 8
              else Untouched(old(library), old(quarantine)) && clock >= old(clock)
      ensures r.Err? ==> PublishFails(fails, old(clock), manifest, old(library), r.error)
    {
      if !manifest.valid {
        return Err(InvalidManifest);
      }
      if !manifest.attested {
        return Err(NotAttested);
      }
      r := WriteManifest(preview, manifest.document);
      if r.Err? {
        return;
      }
      var verified := Attempt(Verify);
      if !verified {
        return Err(IntegrityFailed);
      }
      var synced := Attempt(Sync);
      if !synced {
        return Err(SyncFailed);
      }
      if manifest.id in library {
        return Err(IdCollision);
      }
      var marked := Attempt(Permission);
      if !marked {
        return Err(PermissionFailed);
      }
      var renamed := Attempt(Rename);
      if !renamed {
        return Err(RenameFailed);
      }
      library := library[manifest.id := quarantine[preview]];
      quarantine := quarantine - {preview};
      var listed := Attempt(Sync);
      r := if listed then Ok(()) else Err(SyncFailed);
    }

    /** The library is the old one plus the new pack, which left the quarantine. */
    ghost predicate Published(library0: map<Id, Pack>, quarantine0: map<Name, Pack>, preview: Name, manifest: Manifest)
      reads this
    {
      && preview in quarantine0 && manifest.id !in library0
      && library == library0[manifest.id := quarantine0[preview].(manifest := manifest.document)]
      && quarantine == quarantine0 - {preview}
    }

    ghost predicate Untouched(library0: map<Id, Pack>, quarantine0: map<Name, Pack>)
      reads this
    {
      library == library0 && quarantine.Keys == quarantine0.Keys
    }

    method RollbackPublish(preview: Name, id: Id) returns (r: Result<(), StorageError>)
      requires Valid() && id in library && preview !in quarantine && preview.Preview?
      modifies this`clock, this`library, this`quarantine
      ensures Valid() && old(clock) < clock
      ensures if fails(old(clock), RollbackRename) then library == old(library) && quarantine == old(quarantine)
              else library == old(library) - {id} && quarantine == old(quarantine)[preview := old(library)[id]]
      ensures r.Ok? <==> !fails(old(clock), RollbackRename) && BothSync(fails, old(clock) + 1)
    {
      var renamed := Attempt(RollbackRename);
      if !renamed {
        return Err(RollbackFailed);
      }
      quarantine := quarantine[preview := library[id]];
      library := library - {id};
      r := SyncBoth();
    }

    /** Moves archived packs back, last first. */
    method RestoreArchived(archived: seq<Archived>, ghost library0: map<Id, Pack>, ghost quarantine0: map<Name, Pack>)
      returns (r: Result<(), StorageError>)
      requires Valid() && MovedOut(archived, library0, quarantine0, library, quarantine)
      modifies this`clock, this`library, this`quarantine
      ensures Valid() && old(clock) < clock
      ensures RollbackWorked(fails, old(clock), clock) ==>
                && library == library0 && quarantine == quarantine0
                && (r.Ok? <==> BothSync(fails, old(clock) + |archived|))
                && (r.Err? ==> !SyncWorked(fails, old(clock), clock))
      ensures forall id :: id in old(library) ==> id in library && library[id] == old(library)[id]
      ensures quarantine.Keys <= old(quarantine).Keys
    {
      hide MovedOut;
      var i := |archived|;
      assert archived[..i] == archived;
      while i > 0
        invariant i <= |archived| && Valid() && quarantine.Keys <= old(quarantine).Keys
        invariant clock == old(clock) + (|archived| - i)
        invariant forall id :: id in old(library) ==> id in library && library[id] == old(library)[id]
        invariant MovedOut(archived[..i], library0, quarantine0, library, quarantine)
      {
        var renamed := Attempt(RollbackRename);
        if !renamed {
          return Err(RollbackFailed);
        }
        RestoreLast(archived[..i], library0, quarantine0, library, quarantine);
        assert archived[..i][..i - 1] == archived[..i - 1];
        var last := archived[i - 1];
        library := library[last.id := quarantine[last.backup]];
        quarantine := quarantine - {last.backup};
        i := i - 1;
      }
      assert archived[..0] == [];
      NothingMovedOut(library0, quarantine0, library, quarantine);
      ghost var moved := clock;
      r := SyncBoth();
      RollbackWithin(fails, old(clock), clock, moved, clock);
    }

    /** Moves one pack to a backup under a fresh name. */
    method MoveOut(id: Id, ghost archived: seq<Archived>, ghost library0: map<Id, Pack>, ghost quarantine0: map<Name, Pack>)
      returns (r: Result<Archived, StorageError>)
      requires Valid() && MovedOut(archived, library0, quarantine0, library, quarantine)
      modifies this`clock, this`library, this`quarantine, this`nextSerial
      ensures Valid() && old(clock) <= clock
      ensures r.Ok? <==> id in old(library) && !fails(old(clock), Rename)
      ensures r.Ok? ==>
                && r.value.id == id && clock == old(clock) + 1 && library == old(library) - {id}
                && MovedOut(archived + [r.value], library0, quarantine0, library, quarantine)
                && forall name :: name in quarantine && name.Preview? ==> name in old(quarantine)
      ensures r.Err? ==> library == old(library) && quarantine == old(quarantine)
    {
      if id !in library {
        return Err(PackNotFound);
      }
      var backup := Backup(nextSerial);
      nextSerial := nextSerial + 1;
      var renamed := Attempt(Rename);
      if !renamed {
        return Err(RenameFailed);
      }
      ArchiveOneMore(archived, library0, quarantine0, library, quarantine, Archived(id, backup));
      hide MovedOut;
      quarantine := quarantine[backup := library[id]];
      library := library - {id};
      r := Ok(Archived(id, backup));
    }

    /** Moves the packs out of the library one by one, or puts everything back. */
    method ArchivePacks(packs: seq<Id>) returns (r: Result<seq<Archived>, StorageError>)
      requires Valid()
      modifies this`clock, this`library, this`quarantine, this`nextSerial
      ensures Valid() && old(clock) <= clock
      ensures r.Ok? <==> ArchiveSucceeds(fails, old(clock), packs, old(library))
      ensures r.Ok? ==>
                && MovedOut(r.value, old(library), old(quarantine), library, quarantine)
                && Archives(r.value, packs) && clock == old(clock) + |packs| + 2
      ensures forall id :: id in old(library) && id !in packs ==> id in library && library[id] == old(library)[id]
      ensures forall name :: name in quarantine && name.Preview? ==> name in old(quarantine)
      ensures r.Err? && RollbackWorked(fails, old(clock), clock) ==> library == old(library) && quarantine == old(quarantine)
    {
      ghost var library0, quarantine0 := library, quarantine;
      var archived: seq<Archived> := [];
      hide MovedOut, Archives, RollbackWorked, SyncWorked, RenamesWork, BothSync, ArchiveSucceeds;
      NothingArchived(library, quarantine, packs, fails, clock);
      for k := 0 to |packs|
        invariant Valid() && |archived| == k && clock == old(clock) + k
        invariant RenamesWork(fails, old(clock), clock)
        invariant forall id :: id in library0 && id !in packs ==> id in library && library[id] == library0[id]
        invariant forall name :: name in quarantine && name.Preview? ==> name in quarantine0
        invariant Archives(archived, packs[..k])
        invariant MovedOut(archived, library0, quarantine0, library, quarantine)
      {
        if packs[k] !in library {
          ListRuledOut(archived, library0, quarantine0, library, quarantine, packs, fails, old(clock));
        }
        NextRename(fails, old(clock), packs, k, library0);
        var moved := MoveOut(packs[k], archived, library0, quarantine0);
        if moved.Err? {
          r := GiveUp(moved.error, archived, old(clock), library0, quarantine0);
          return;
        }
        ArchivesNext(archived, packs, k, moved.value);
        archived := archived + [moved.value];
      }
      assert packs[..|packs|] == packs;
      ListMovedOut(archived, library0, quarantine0, library, quarantine, packs, fails, old(clock));
      var synced := SyncBoth();
      if synced.Err? {
        r := GiveUp(synced.error, archived, old(clock), library0, quarantine0);
        return;
      }
      r := Ok(archived);
    }

    /** The error of an archiving that began at `begin`, after moving everything back; a failing move back hides it. */
    method GiveUp(
      error: StorageError, archived: seq<Archived>, ghost begin: nat, ghost library0: map<Id, Pack>, ghost quarantine0: map<Name, Pack>)
      returns (r: Result<seq<Archived>, StorageError>)
      requires Valid() && MovedOut(archived, library0, quarantine0, library, quarantine) && begin <= clock
      modifies this`clock, this`library, this`quarantine
      ensures Valid() && old(clock) < clock && r.Err?
      ensures RollbackWorked(fails, begin, clock) ==> library == library0 && quarantine == quarantine0
      ensures forall id :: id in old(library) ==> id in library && library[id] == old(library)[id]
      ensures quarantine.Keys <= old(quarantine).Keys
    {
      hide MovedOut;
      var restored := RestoreArchived(archived, library0, quarantine0);
      RollbackWithin(fails, begin, clock, old(clock), clock);
      r := Err(if restored.Ok? then error else restored.error);
    }

    /** Removes backups and nothing else; a failure leaves one behind for the next start to clean up. */
    method DiscardArchived(archived: seq<Archived>)
      requires Valid()
      modifies this`clock, this`quarantine
      ensures Valid() && old(clock) < clock && quarantine.Keys <= old(quarantine).Keys
      ensures StillThere(old(quarantine) - Backups(archived), quarantine)
      ensures DiscardsWork(fails, old(clock), clock) ==> quarantine == old(quarantine) - Backups(archived)
    {
      NoBackups();
      assert archived[..0] == [];
      for k := 0 to |archived|
        invariant Valid() && clock == old(clock) + k && quarantine.Keys <= old(quarantine).Keys
        invariant StillThere(old(quarantine) - Backups(archived[..k]), quarantine)
        invariant DiscardsWork(fails, old(clock), clock) ==> quarantine == old(quarantine) - Backups(archived[..k])
      {
        assert archived[..k + 1][..k] == archived[..k];
        SplitLast(archived[..k + 1]);
        hide Backups, Ids;
        var removed := Attempt(Discard);
        if removed {
          quarantine := quarantine - {archived[k].backup};
        }
      }
      assert archived[..|archived|] == archived;
      var _ := Attempt(Sync);
    }

    /**
     * Saves the state and drops the archived packs; if the state did not take, moves the packs back. A save that failed
     * after its rename counts as saved once the state reads back. `restored` tells whether moving back went through.
     */
    method SaveOrRestore(next: StateFile, archived: seq<Archived>, ghost library0: map<Id, Pack>, ghost quarantine0: map<Name, Pack>)
      returns (r: Result<(), StorageError>, restored: bool)
      requires Valid() && MovedOut(archived, library0, quarantine0, library, quarantine)
      modifies this`clock, this`library, this`quarantine, this`state
      ensures Valid() && old(clock) < clock
      ensures r.Ok? ==> state == next && library == old(library) && StillThere(quarantine0, quarantine)
      ensures RollbackWorked(fails, old(clock), clock) ==> (r.Ok? <==> Persists(fails, old(clock)) || old(state) == next)
      ensures r.Err? && RollbackWorked(fails, old(clock), clock) ==>
                && state == old(state) && library == library0 && quarantine == quarantine0
                && (restored <==> BothSync(fails, UndoSync(fails, old(clock), |archived|)))
                && (!restored ==> !SyncWorked(fails, old(clock), clock))
      ensures r.Err? ==> forall id :: id in old(library) ==> id in library && library[id] == old(library)[id]
      ensures r.Err? ==> quarantine.Keys <= old(quarantine).Keys
    {
      hide MovedOut;
      r := SaveState(next);
      restored := false;
      if r.Err? {
        var read := LoadState();
        if read != Some(next) {
          ghost var until := clock;
          var restoring := RestoreArchived(archived, library0, quarantine0);
          RollbackWithin(fails, old(clock), clock, until, clock);
          restored := restoring.Ok?;
          return if restored then r else restoring, restored;
        }
      }
      BackupsAreExtra(archived, library0, quarantine0, library, quarantine);
      DiscardArchived(archived);
      r := Ok(());
    }

    /** The old library without the replaced packs and with the new one, which is selected; their mappings are gone. */
    ghost predicate Replaced(
      library0: map<Id, Pack>, preview: Pack, manifest: Manifest, current: StateFile, now: nat, replaced: seq<Id>)
      reads this
    {
      && (forall id :: id in replaced ==> id in library0)
      && library == (library0 - IdSet(replaced))[manifest.id := preview.(manifest := manifest.document)]
      && state == StateFile(Custom(manifest.id), now, current.mappings - IdSet(replaced))
    }

    /**
     * The second half of a replacement: with the new pack in the library, moves the replaced packs out and saves the
     * state, or takes the new pack back as well, unless moving the others back did not go through.
     */
    method ReplaceByPublished(preview: Name, id: Id, next: StateFile, replaced: seq<Id>) returns (r: Result<(), StorageError>)
      requires Valid() && preview.Preview? && preview !in quarantine && id in library && id !in replaced
      modifies this
      ensures Valid() && old(clock) <= clock
      ensures r.Ok? ==>
                && state == next && library == old(library) - IdSet(replaced) && StillThere(old(quarantine), quarantine)
                && forall pack :: pack in replaced ==> pack in old(library)
      ensures RollbackWorked(fails, old(clock), clock) ==>
                && (r.Ok? <==> ReplacementCommits(fails, old(clock), replaced, old(library), old(state) == next))
                && (r.Err? ==>
                      && state == old(state)
                      && if ReplacementLeaves(fails, old(clock), replaced, old(library), old(state) == next)
                         then library == old(library) && quarantine == old(quarantine) && !SyncWorked(fails, old(clock), clock)
                         else TakenBack(old(library), old(quarantine), preview, id))
    {
      ghost var library1, quarantine1, begin := library, quarantine, clock;
      var archiving := ArchivePacks(replaced);
      hide MovedOut, Archives, IdSet, RollbackWorked, SyncWorked, ArchiveSucceeds, Persists, BothSync;
      ghost var archived := clock;
      if archiving.Err? {
        var rolledBack := RollbackPublish(preview, id);
        RollbackWithin(fails, begin, clock, begin, archived);
        RollbackAt(fails, begin, clock, archived);
        return if rolledBack.Ok? then Err(archiving.error) else Err(rolledBack.error);
      }
      MovedOutKeepsOthers(archiving.value, library1, quarantine1, library, quarantine, replaced, id);
      ArchivesSize(archiving.value, replaced);
      var saved, restored := SaveOrRestore(next, archiving.value, library1, quarantine1);
      ghost var settled := clock;
      RollbackWithin(fails, begin, clock, archived, clock);
      if saved.Err? && restored {
        var rolledBack := RollbackPublish(preview, id);
        RollbackWithin(fails, begin, clock, archived, settled);
        RollbackAt(fails, begin, clock, settled);
        return if rolledBack.Ok? then saved else rolledBack;
      }
      r := saved;
    }

    /** The new pack is out of the library and back in its preview. */
    ghost predicate TakenBack(library0: map<Id, Pack>, quarantine0: map<Name, Pack>, preview: Name, id: Id)
      requires id in library0
      reads this
    {
      library == library0 - {id} && quarantine == quarantine0[preview := library0[id]]
    }

    /**
     * Publishes the preview as the only custom pack and selects it. When undoing works during the call, the condition for
     * success and the one for an error that leaves the new pack in the library are exact; any other error changes neither
     * library nor state. So an error of a call in which no sync failed leaves nothing behind.
     */
    method PublishAndReplaceCustom(preview: Name, manifest: Manifest, current: StateFile, now: nat, replaced: seq<Id>)
      returns (r: Result<(), StorageError>)
      requires Valid() && preview.Preview? && preview in quarantine
      requires manifest.id !in replaced
      modifies this
      ensures Valid() && old(clock) <= clock
      ensures r.Ok? ==>
                && Replaced(old(library), old(quarantine)[preview], manifest, current, now, replaced)
                && StillThere(old(quarantine) - {preview}, quarantine)
      ensures RollbackWorked(fails, old(clock), clock) ==>
                var same := old(state) == StateFile(Custom(manifest.id), now, current.mappings - IdSet(replaced));
                && (r.Ok? <==> Commits(fails, old(clock), manifest, replaced, old(library), same))
                && (r.Err? ==>
                      && state == old(state)
                      && if Leaves(fails, old(clock), manifest, replaced, old(library), same)
                         then Published(old(library), old(quarantine), preview, manifest) && !SyncWorked(fails, old(clock), clock)
                         else Untouched(old(library), old(quarantine)))
      ensures RollbackWorked(fails, old(clock), clock) && Names(old(state), old(library)) ==> Names(state, library)
    {
      ghost var library0, begin := library, clock;
      r := Publish(preview, manifest);
      if r.Err? {
        return;
      }
      ghost var published := clock;
      ListUnaffected(fails, published, replaced, library0, library, manifest.id);
      ReplacementState(current, IdSet(replaced), manifest.id, now);
      hide IdSet, ReplaceCustomPacks, Select, RollbackWorked, SyncWorked, ArchiveSucceeds, PublishRenames, Persists, BothSync;
      var next := Select(ReplaceCustomPacks(current, IdSet(replaced), manifest.id, now), Custom(manifest.id), now);
      r := ReplaceByPublished(preview, manifest.id, next, replaced);
      RollbackWithin(fails, begin, clock, published, clock);
    }

    /** Deletes one pack; if it was selected, the builtin pack is selected instead. An error changes nothing. */
    method DeleteCustomAndFallback(pack: Id, current: StateFile, now: nat) returns (r: Result<(), StorageError>)
      requires Valid()
      modifies this
      ensures Valid() && old(clock) <= clock
      ensures r.Ok? ==>
                && pack in old(library) && library == old(library) - {pack}
                && state == (if current.selected == Custom(pack) then StateFile(Builtin, now, current.mappings - {pack})
                             else StateFile(current.selected, current.updatedAt, current.mappings - {pack}))
                && StillThere(old(quarantine), quarantine)
      ensures RollbackWorked(fails, old(clock), clock) ==>
                && (r.Ok? <==>
                    && ArchiveSucceeds(fails, old(clock), [pack], old(library))
                    && (old(state) == RemoveCustomPack(current, pack, now) || Persists(fails, old(clock) + 3)))
                && (r.Err? ==> library == old(library) && quarantine == old(quarantine) && state == old(state))
                && (Names(old(state), old(library)) && Names(current, old(library)) ==> Names(state, library))
    {
      ghost var library0, quarantine0 := library, quarantine;
      var archiving := ArchivePacks([pack]);
      hide RollbackWorked, SyncWorked, ArchiveSucceeds, Persists;
      if archiving.Err? {
        return Err(archiving.error);
      }
      MovedOutIds(archiving.value, library0, quarantine0, library, quarantine, [pack]);
      hide MovedOut;
      ghost var until := clock;
      var next := RemoveCustomPack(current, pack, now);
      var saved, _ := SaveOrRestore(next, archiving.value, library0, quarantine0);
      RollbackWithin(fails, old(clock), clock, until, clock);
      r := saved;
    }
  }

  // ----- an error can leave the new pack behind -----------------------------------------------------------

  const EMPTY_STATE := StateFile(Builtin, 0, map[])

  /** The last sync of the publish is the only operation that fails. */
  method PublishSyncLeavesPack() returns (r: Result<(), StorageError>, library: map<Id, Pack>)
    ensures r.Err? && library == map[1 := Pack(0, 9)]
  {
    var storage := new Storage((t, op) => t == 7 && op == Sync, map[], map[Preview(0) := Pack(0, 0)], EMPTY_STATE);
    r := storage.PublishAndReplaceCustom(Preview(0), Manifest(1, 9, true, true), EMPTY_STATE, 5, []);
    library := storage.library;
  }

  /** The rename of the state file fails, and then the first sync after the replaced pack was moved back. */
  method UndoSyncLeavesPack() returns (r: Result<(), StorageError>, library: map<Id, Pack>)
    ensures r.Err? && library == map[1 := Pack(0, 9), 2 := Pack(3, 4)]
  {
    var storage := new Storage(
      (t, op) => (t == 12 && op == Rename) || (t == 15 && op == Sync), map[2 := Pack(3, 4)], map[Preview(0) := Pack(0, 0)], EMPTY_STATE);
    r := storage.PublishAndReplaceCustom(Preview(0), Manifest(1, 9, true, true), EMPTY_STATE, 5, [2]);
    library := storage.library;
  }

  lemma RollbackAt(fails: Faults, from: nat, to: nat, t: nat)
    requires from <= t < to
    ensures RollbackWorked(fails, from, to) ==> !fails(t, RollbackRename)
  {
  }

  lemma ArchivesSize(archived: seq<Archived>, packs: seq<Id>)
    requires Archives(archived, packs)
    ensures |archived| == |packs|
  {
  }

  /** Whether a list can be moved out does not depend on a pack it does not name. */
  lemma ListUnaffected(fails: Faults, t: nat, packs: seq<Id>, library: map<Id, Pack>, library': map<Id, Pack>, other: Id)
    requires other !in packs && other in library' && library' == library[other := library'[other]]
    ensures ArchiveSucceeds(fails, t, packs, library') <==> ArchiveSucceeds(fails, t, packs, library)
  {
    assert forall id :: id in packs ==> (id in library' <==> id in library);
  }
}
