/** A snapshot store on disk: any file operation may fail, and the machine may stop after any of them. */
module SnapshotStore {
  import opened SnapshotIndex

  /** A release directory, complete or not. */
  datatype Directory = Directory(manifest: Option<Raw>, data: Option<Files>)

  datatype Entry = Release(sequence: Sequence) | Staging(number: nat)

  type Releases = map<Entry, Directory>

  /** An operation took effect, raised an error without effect, or never returned. */
  datatype Result = Done | Raised | Stopped

  datatype Outcome = Fine | Unchanged | Refused | Broken | Dead

  /** A directory that the index may point to. */
  predicate Complete(directory: Directory, sequence: Sequence, record: Record) {
    && directory.manifest.Some?
    && Digest(directory.manifest.value) == record.hash
    && Decoded(directory.manifest.value).Some?
    && Decoded(directory.manifest.value).value.sequence == sequence
    && Decoded(directory.manifest.value).value.version == record.version
    && directory.data == Some(Decoded(directory.manifest.value).value.files)
  }

  function RecordOf(raw: Raw, manifest: Manifest): Record {
    Record(Digest(raw), manifest.version)
  }

  /** What a finished staging directory holds. */
  function Snapshot(raw: Raw, manifest: Manifest): Directory {
    Directory(Some(raw), Some(manifest.files))
  }

  /** The index in force: a store without one is as good as new. */
  function Current(index: Option<Index>): Index {
    if index.None? then NewIndex else index.value
  }

  predicate AllComplete(releases: Releases, index: Index) {
    forall sequence :: sequence in index.releases ==>
      Release(sequence) in releases && Complete(releases[Release(sequence)], sequence, index.releases[sequence])
  }

  /** What holds of the disk at every moment, whenever the machine stops. */
  predicate DiskOk(index: Option<Index>, releases: Releases, history: History) {
    match index
    case None => releases == map[] && history == map[]
    case Some(value) => IndexOk(value) && AllComplete(releases, value) && Remembers(value, history)
  }

  class Disk {
    var index: Option<Index>
    var releases: Releases
    /** Index files written beside the index and not yet put in its place. */
    var drafts: nat
    /** Operations that failed or never returned. */
    ghost var faults: nat
    /** The machine has stopped, and does nothing until it is started again. */
    ghost var stopped: bool

    constructor ()
      ensures index == None && releases == map[] && drafts == 0 && faults == 0 && !stopped
    {
      index, releases, drafts, faults, stopped := None, map[], 0, 0, false;
    }

    /** An operation whose effect does not matter here. */
    method Touch() returns (result: Result)
      requires !stopped
      modifies this`faults, this`stopped
      ensures (stopped <==> result == Stopped)
      ensures faults == old(faults) + (if result == Done then 0 else 1)
    {
      result := *;
      if result != Done { faults := faults + 1; }
      stopped := result == Stopped;
    }

    /** Creates an empty file beside the index. */
    method Draft() returns (result: Result)
      requires !stopped
      modifies this`drafts, this`faults, this`stopped
      ensures result == Done ==> drafts == old(drafts) + 1
      ensures result == Raised ==> drafts == old(drafts)
      ensures stopped <==> result == Stopped
      ensures faults == old(faults) + (if result == Done then 0 else 1)
    {
      result := Touch();
      var late: bool := *;
      if result == Done || (result == Stopped && late) { drafts := drafts + 1; }
    }

    /** Removes such a file, if it is still there. */
    method Unlink(there: bool) returns (result: Result)
      requires !stopped && (there ==> drafts > 0)
      modifies this`drafts, this`faults, this`stopped
      ensures result == Done ==> drafts == if there then old(drafts) - 1 else old(drafts)
      ensures result == Raised ==> drafts == old(drafts)
      ensures stopped <==> result == Stopped
      ensures !there ==> drafts == old(drafts)
      ensures faults == old(faults) + (if result == Done then 0 else 1)
    {
      result := Touch();
      var late: bool := *;
      if there && (result == Done || (result == Stopped && late)) { drafts := drafts - 1; }
    }

    /** The machine starts again. */
    method Restart()
      modifies this`stopped
      ensures !stopped
    {
      stopped := false;
    }

    /** Replaces the index; the machine may stop before or after. */
    method Replace(next: Index) returns (result: Result)
      requires !stopped && drafts > 0
      modifies this`index, this`drafts, this`faults, this`stopped
      ensures index == old(index) || index == Some(next)
      ensures result == Done ==> index == Some(next) && drafts == old(drafts) - 1
      ensures result == Raised ==> index == old(index) && drafts == old(drafts)
      ensures stopped <==> result == Stopped
      ensures faults == old(faults) + (if result == Done then 0 else 1)
    {
      result := Touch();
      var late: bool := *;
      if result == Done || (result == Stopped && late) { index, drafts := Some(next), drafts - 1; }
    }

    /** Changes, creates or (with None) removes one directory entry. */
    method Put(entry: Entry, directory: Option<Directory>) returns (result: Result)
      requires !stopped
      modifies this`releases, this`faults, this`stopped
      ensures releases == old(releases) || releases == After(old(releases), entry, directory)
      ensures result == Done ==> releases == After(old(releases), entry, directory)
      ensures result == Raised ==> releases == old(releases)
      ensures stopped <==> result == Stopped
      ensures faults == old(faults) + (if result == Done then 0 else 1)
    {
      result := Touch();
      var late: bool := *;
      if result == Done || (result == Stopped && late) { releases := After(releases, entry, directory); }
    }

    /** Gives a finished staging directory its final name. */
    method Rename(from: Entry, to: Entry) returns (result: Result)
      requires from in releases
      requires !stopped
      modifies this`releases, this`faults, this`stopped
      ensures releases == old(releases) || releases == Renamed(old(releases), from, to)
      ensures result == Done ==> releases == Renamed(old(releases), from, to)
      ensures result == Raised ==> releases == old(releases)
      ensures stopped <==> result == Stopped
      ensures faults == old(faults) + (if result == Done then 0 else 1)
    {
      result := Touch();
      var late: bool := *;
      if result == Done || (result == Stopped && late) { releases := Renamed(releases, from, to); }
    }
  }

  function After(releases: Releases, entry: Entry, directory: Option<Directory>): Releases {
    if directory.None? then releases - {entry} else releases[entry := directory.value]
  }

  function Renamed(releases: Releases, from: Entry, to: Entry): Releases
    requires from in releases
  {
    (releases - {from})[to := releases[from]]
  }

  // ----- what each operation keeps ------------------------------------------------------------

  /** Nothing the index points to has changed. */
  predicate Spared(before: Releases, after: Releases, index: Index) {
    forall sequence :: sequence in index.releases && Release(sequence) in before ==>
      Release(sequence) in after && after[Release(sequence)] == before[Release(sequence)]
  }

  lemma SparedKeeps(before: Releases, after: Releases, index: Index, history: History)
    requires DiskOk(Some(index), before, history) && Spared(before, after, index)
    ensures DiskOk(Some(index), after, history)
  {
  }

  lemma PutSpares(before: Releases, entry: Entry, directory: Option<Directory>, index: Index)
    requires entry.Release? ==> entry.sequence !in index.releases
    ensures Spared(before, After(before, entry, directory), index)
  {
  }

  lemma RenameSpares(before: Releases, from: Entry, to: Entry, index: Index)
    requires from in before && from.Staging?
    requires to.Release? ==> to.sequence !in index.releases
    ensures Spared(before, Renamed(before, from, to), index)
  {
  }

  /** The new release may be indexed. */
  lemma StageKeeps(index: Index, releases: Releases, history: History, sequence: Sequence, record: Record)
    requires DiskOk(Some(index), releases, history)
    requires sequence !in index.releases && index.highest <= sequence <= LastSequence && 0 < sequence
    requires |index.releases| < ReleaseLimit
    requires Release(sequence) in releases && Complete(releases[Release(sequence)], sequence, record)
    ensures sequence !in history
    ensures DiskOk(Some(Staged(index, sequence, record)), releases, history[sequence := record])
  {
    StagedOk(index, sequence, record);
    StagedRemembers(index, history, sequence, record);
  }

  /** A release can be added exactly when its manifest is sound, timely and newest, there is room, and its directory is its own. */
  lemma StagesExactly(index: Index, releases: Releases, raw: Raw, timely: bool)
    ensures StageOutcome(index, releases, raw, timely) == Fine <==>
              && raw.value.Some? && 1 <= raw.value.value.sequence <= 9223372036854775807 && timely
              && raw.value.value.sequence >= index.highest && raw.value.value.sequence !in index.releases && |index.releases| < 16
              && (if Release(raw.value.value.sequence) in releases
                  then releases[Release(raw.value.value.sequence)] == Directory(Some(raw), Some(raw.value.value.files)) else |releases| < 16)
    ensures StageOutcome(index, releases, raw, timely) == Unchanged <==>
              && raw.value.Some? && 1 <= raw.value.value.sequence <= 9223372036854775807 && timely
              && raw.value.value.sequence >= index.highest && raw.value.value.sequence in index.releases
              && index.releases[raw.value.value.sequence] == Record(Digest(raw), raw.value.value.version)
  {
  }

  /** What staging a manifest comes to when no operation fails. */
  function StageOutcome(index: Index, releases: Releases, raw: Raw, timely: bool): Outcome {
    var manifest := Decoded(raw);
    if manifest.None? || !timely || manifest.value.sequence < index.highest then Refused
    else
      var sequence, record := manifest.value.sequence, RecordOf(raw, manifest.value);
      if sequence in index.releases then if index.releases[sequence] == record then Unchanged else Refused
      else if |index.releases| >= ReleaseLimit then Refused
      else if Release(sequence) in releases then if Complete(releases[Release(sequence)], sequence, record) then Fine else Refused
      else if |releases| >= ReleaseLimit then Refused
      else Fine
  }

  class Store {
    const disk: Disk
    const minimum: Sequence
    ghost var history: History

    ghost predicate Valid()
      reads this, disk
    {
      DiskOk(disk.index, disk.releases, history)
    }

    constructor (disk: Disk, minimum: Sequence)
      requires disk.index == None && disk.releases == map[]
      ensures Valid() && this.disk == disk && history == map[]
    {
      this.disk, this.minimum, history := disk, minimum, map[];
    }

    /** Writes the index beside the old one and puts it in its place at one stroke. */
    method Save(next: Index, ghost remembered: History) returns (result: Result)
      requires Valid() && DiskOk(Some(next), disk.releases, remembered) && !disk.stopped
      modifies disk`index, disk`drafts, disk`faults, disk`stopped, this`history
      ensures Valid()
      ensures (disk.index == old(disk.index) && history == old(history)) || (disk.index == Some(next) && history == remembered)
      ensures result == Done ==> disk.index == Some(next) && history == remembered
      ensures Told(result)
      ensures !disk.stopped && disk.faults <= old(disk.faults) + 1 ==> disk.drafts == old(disk.drafts)
    {
      hide DiskOk;
      result := disk.Draft();
      if result != Done { return; }
      var there := true;
      result := disk.Touch();
      if result == Stopped { return; }
      if result == Done {
        result := disk.Replace(next);
        if disk.index == Some(next) { history := remembered; }
        if result == Stopped { return; }
        if result == Done {
          there := false;
          result := disk.Touch();
          if result == Stopped { return; }
        }
      }
      var unlinked := disk.Unlink(there);
      if unlinked != Done { result := unlinked; }
    }

    /** An operation is done exactly when nothing failed in it, and never returns exactly when the machine stopped. */
    twostate predicate Told(result: Result)
      reads this, disk
    {
      && disk.faults >= old(disk.faults) && (result == Done <==> disk.faults == old(disk.faults))
      && (disk.stopped <==> result == Stopped)
    }

    /** The same for a whole command, which may also refuse. */
    twostate predicate Answered(outcome: Outcome)
      reads this, disk
    {
      && disk.faults >= old(disk.faults) && (outcome in {Fine, Unchanged, Refused} <==> disk.faults == old(disk.faults))
      && (disk.stopped <==> outcome == Dead)
    }

    /** Removes a directory the index does not point to, one file at a time. */
    method RemoveTree(entry: Entry) returns (result: Result)
      requires Valid() && !disk.stopped && disk.index.Some? && entry in disk.releases
      requires entry.Release? ==> entry.sequence !in disk.index.value.releases
      modifies disk`releases, disk`faults, disk`stopped
      ensures Valid()
      ensures result == Done ==> entry !in disk.releases
      ensures disk.releases - {entry} == old(disk.releases) - {entry}
      ensures Told(result)
    {
      hide DiskOk, Spared;
      ghost var before := disk.releases;
      var data := disk.releases[entry].data;
      var left := if data.Some? then data.value.Keys else {};
      while left != {}
        invariant Valid() && entry in disk.releases
        invariant disk.releases - {entry} == before - {entry}
        invariant disk.releases[entry].data.Some? ==> left <= disk.releases[entry].data.value.Keys
        invariant left != {} ==> disk.releases[entry].data.Some?
        invariant disk.faults == old(disk.faults) && !disk.stopped
        decreases left
      {
        var name :| name in left;
        var directory := disk.releases[entry];
        result := Change(entry, Some(directory.(data := Some(directory.data.value - {name}))));
        if result != Done { return; }
        left := left - {name};
      }
      result := RemoveEmptied(entry);
    }

    method RemoveEmptied(entry: Entry) returns (result: Result)
      requires Valid() && !disk.stopped && disk.index.Some? && entry in disk.releases
      requires entry.Release? ==> entry.sequence !in disk.index.value.releases
      modifies disk`releases, disk`faults, disk`stopped
      ensures Valid()
      ensures result == Done ==> entry !in disk.releases
      ensures disk.releases - {entry} == old(disk.releases) - {entry}
      ensures Told(result)
    {
      hide DiskOk, Spared;
      result := Change(entry, Some(disk.releases[entry].(data := None)));
      if result != Done { return; }
      result := Change(entry, Some(disk.releases[entry].(manifest := None)));
      if result != Done { return; }
      result := Change(entry, None);
    }

    /** Changes a directory the index does not point to. */
    method Change(entry: Entry, directory: Option<Directory>) returns (result: Result)
      requires Valid() && !disk.stopped && disk.index.Some?
      requires entry.Release? ==> entry.sequence !in disk.index.value.releases
      modifies disk`releases, disk`faults, disk`stopped
      ensures Valid() && Spared(old(disk.releases), disk.releases, disk.index.value)
      ensures disk.releases == old(disk.releases) || disk.releases == After(old(disk.releases), entry, directory)
      ensures result == Done ==> disk.releases == After(old(disk.releases), entry, directory)
      ensures disk.releases - {entry} == old(disk.releases) - {entry}
      ensures Told(result)
    {
      hide DiskOk;
      ghost var before := disk.releases;
      PutSpares(before, entry, directory, disk.index.value);
      SparedKeeps(before, After(before, entry, directory), disk.index.value, history);
      result := disk.Put(entry, directory);
    }

    /** Writes a release under a staging name and renames it once it is whole. */
    method WriteRelease(number: nat, raw: Raw, manifest: Manifest) returns (result: Result)
      requires Valid() && !disk.stopped && disk.index.Some? && Staging(number) !in disk.releases
      requires Release(manifest.sequence) !in disk.releases && manifest.sequence !in disk.index.value.releases
      modifies disk`releases, disk`faults, disk`stopped
      ensures Valid()
      ensures Release(manifest.sequence) in disk.releases ==> disk.releases[Release(manifest.sequence)] == Snapshot(raw, manifest)
      ensures result == Done ==> Release(manifest.sequence) in disk.releases
      ensures Told(result) && Neat(number)
      ensures forall entry :: entry != Staging(number) && entry != Release(manifest.sequence) ==>
                (entry in disk.releases <==> entry in old(disk.releases)) &&
                (entry in disk.releases ==> disk.releases[entry] == old(disk.releases)[entry])
    {
      hide DiskOk, Spared;
      var staging := Staging(number);
      ghost var start := disk.releases;
      result := FillStaging(staging, raw, manifest);
      Elsewhere(start, disk.releases, staging);
      if result == Stopped { return; }
      if result == Done {
        ghost var before := disk.releases;
        RenameSpares(before, staging, Release(manifest.sequence), disk.index.value);
        SparedKeeps(before, Renamed(before, staging, Release(manifest.sequence)), disk.index.value, history);
        result := disk.Rename(staging, Release(manifest.sequence));
        if result == Stopped { return; }
        if result == Done { result := disk.Touch(); }
        if result == Stopped { return; }
      }
      if staging in disk.releases {
        ghost var before := disk.releases;
        var removed := RemoveTree(staging);
        Elsewhere(before, disk.releases, staging);
        if removed != Done { result := removed; }
      }
    }

    /** Only the staging directory and the release itself may have changed. */
    static ghost predicate OnlyThese(before: Releases, after: Releases, number: nat, raw: Raw) {
      forall entry :: entry != Staging(number) && !(Decoded(raw).Some? && entry == Release(Decoded(raw).value.sequence)) ==>
        (entry in after <==> entry in before) && (entry in after ==> after[entry] == before[entry])
    }

    /** A single failure leaves neither a staging directory nor a draft of the index behind. */
    twostate predicate Neat(number: nat)
      reads disk
    {
      !disk.stopped && disk.faults <= old(disk.faults) + 1 ==> Staging(number) !in disk.releases && disk.drafts == old(disk.drafts)
    }

    static lemma Elsewhere(before: Releases, after: Releases, changed: Entry)
      requires after - {changed} == before - {changed}
      ensures forall entry :: entry != changed ==> (entry in after <==> entry in before) && (entry in after ==> after[entry] == before[entry])
    {
      forall entry | entry != changed
        ensures (entry in after <==> entry in before) && (entry in after ==> after[entry] == before[entry])
      {
        assert entry in after <==> entry in after - {changed};
        assert entry in before <==> entry in before - {changed};
      }
    }

    /** Fills a staging directory: data files first created, then written, and the manifest likewise. */
    method FillStaging(staging: Entry, raw: Raw, manifest: Manifest) returns (result: Result)
      requires Valid() && !disk.stopped && disk.index.Some? && staging.Staging? && staging !in disk.releases
      modifies disk`releases, disk`faults, disk`stopped
      ensures Valid() && disk.releases - {staging} == old(disk.releases) - {staging}
      ensures result == Done ==> staging in disk.releases && disk.releases[staging] == Snapshot(raw, manifest)
      ensures Told(result)
    {
      hide DiskOk, Spared;
      result := Change(staging, Some(Directory(None, None)));
      if result != Done { return; }
      result := Change(staging, Some(Directory(None, Some(map[]))));
      if result != Done { return; }
      result := Change(staging, Some(Directory(Some(Raw("", None)), Some(map[]))));
      if result != Done { return; }
      result := Change(staging, Some(Directory(Some(raw), Some(map[]))));
      if result != Done { return; }
      result := FillData(staging, raw, manifest.files);
      if result != Done { return; }
      result := disk.Touch();
    }

    method FillData(staging: Entry, raw: Raw, files: Files) returns (result: Result)
      requires Valid() && !disk.stopped && disk.index.Some? && staging.Staging?
      requires staging in disk.releases && disk.releases[staging] == Directory(Some(raw), Some(map[]))
      modifies disk`releases, disk`faults, disk`stopped
      ensures Valid() && disk.releases - {staging} == old(disk.releases) - {staging}
      ensures result == Done ==> staging in disk.releases && disk.releases[staging] == Directory(Some(raw), Some(files))
      ensures Told(result)
    {
      hide DiskOk, Spared;
      ghost var before := disk.releases;
      result := Done;
      var data: Files := map[];
      var left := files.Keys;
      while left != {}
        invariant Valid() && staging in disk.releases && disk.releases[staging] == Directory(Some(raw), Some(data))
        invariant disk.releases - {staging} == before - {staging}
        invariant data.Keys == files.Keys - left && left <= files.Keys
        invariant forall name :: name in data ==> data[name] == files[name]
        invariant result == Done && disk.faults == old(disk.faults) && !disk.stopped
        decreases left
      {
        var name :| name in left;
        result := Change(staging, Some(Directory(Some(raw), Some(data[name := ""]))));
        if result != Done { return; }
        result := Change(staging, Some(Directory(Some(raw), Some(data[name := files[name]]))));
        if result != Done { return; }
        data := data[name := files[name]];
        left := left - {name};
      }
      assert data == files;
    }

    // ----- commands ---------------------------------------------------------------------------

    /**
      * Stages a manifest. Whatever happens, the index in force is the old one or has exactly this release
      * added, and no sequence ever gets a second manifest.
      */
    method Stage(raw: Raw, timely: bool, number: nat) returns (outcome: Outcome)
      requires Valid() && !disk.stopped && Staging(number) !in disk.releases
      modifies this`history, disk
      ensures Valid()
      ensures outcome in {Fine, Unchanged, Refused} ==> outcome == StageOutcome(Current(old(disk.index)), old(disk.releases), raw, timely)
      ensures Answered(outcome)
      ensures OnlyThese(old(disk.releases), disk.releases, number, raw)
      ensures Neat(number)
      ensures outcome in {Unchanged, Refused} ==> Current(disk.index) == Current(old(disk.index))
      ensures (Current(disk.index) == Current(old(disk.index)) && history == old(history)) || StagedNow(old(disk.index), disk.index, old(history), history, raw)
      ensures outcome == Fine ==> StagedNow(old(disk.index), disk.index, old(history), history, raw)
    {
      hide DiskOk, Complete;
      var manifest := Decoded(raw);
      if manifest.None? || !timely { return Refused; }
      var index := Current(disk.index);
      CurrentOk(disk.index, disk.releases, history);
      var sequence, record := manifest.value.sequence, RecordOf(raw, manifest.value);
      if sequence < index.highest { return Refused; }
      if sequence in index.releases {
        if index.releases[sequence] != record { return Refused; }
        var seen := disk.Touch();
        return if seen == Done then Unchanged else if seen == Raised then Broken else Dead;
      }
      if |index.releases| >= ReleaseLimit { return Refused; }
      if disk.index.None? {
        NewStore(disk.releases, history);
        var saved := Save(NewIndex, history);
        if saved != Done { return if saved == Raised then Broken else Dead; }
      }
      outcome := StageNew(raw, manifest.value, number);
    }

    /** Stages a manifest of a new sequence: its directory is written, or found complete, and then indexed. */
    method StageNew(raw: Raw, manifest: Manifest, number: nat) returns (outcome: Outcome)
      requires Valid() && !disk.stopped && Staging(number) !in disk.releases
      requires disk.index.Some? && IndexOk(disk.index.value) && Decoded(raw) == Some(manifest)
      requires manifest.sequence !in disk.index.value.releases && disk.index.value.highest <= manifest.sequence
      requires |disk.index.value.releases| < ReleaseLimit
      modifies this`history, disk
      ensures Valid()
      ensures outcome in {Fine, Unchanged, Refused} ==> outcome == StageOutcome(old(disk.index).value, old(disk.releases), raw, true)
      ensures Answered(outcome)
      ensures OnlyThese(old(disk.releases), disk.releases, number, raw)
      ensures Neat(number)
      ensures outcome == Refused ==> disk.index == old(disk.index)
      ensures (disk.index == old(disk.index) && history == old(history)) || StagedNow(old(disk.index), disk.index, old(history), history, raw)
      ensures outcome == Fine ==> StagedNow(old(disk.index), disk.index, old(history), history, raw)
    {
      hide DiskOk, Complete;
      var index, sequence, record := disk.index.value, manifest.sequence, RecordOf(raw, manifest);
      var present := Release(sequence) in disk.releases;
      if present {
        var seen := disk.Touch();
        if seen != Done { return if seen == Raised then Broken else Dead; }
        if !Complete(disk.releases[Release(sequence)], sequence, record) { return Refused; }
      } else {
        if |disk.releases| >= ReleaseLimit { return Refused; }
        var written := WriteRelease(number, raw, manifest);
        if written != Done { return if written == Raised then Broken else Dead; }
        SnapshotIsComplete(raw, manifest);
      }
      StageKeeps(index, disk.releases, history, sequence, record);
      var saved := Save(Staged(index, sequence, record), history[sequence := record]);
      return if saved == Done then Fine else if saved == Raised then Broken else Dead;
    }

    /** The release has been added, to the index and to what is remembered, and to nothing that was there. */
    static ghost predicate StagedNow(before: Option<Index>, after: Option<Index>, history: History, remembered: History, raw: Raw) {
      && Decoded(raw).Some?
      && var manifest := Decoded(raw).value;
      && Current(after) == Staged(Current(before), manifest.sequence, RecordOf(raw, manifest))
      && manifest.sequence !in history && manifest.sequence > Current(before).highest
      && remembered == history[manifest.sequence := RecordOf(raw, manifest)]
    }

    /** What was staged is the only change. */
    static lemma StagedAdds(before: Option<Index>, after: Option<Index>, history: History, remembered: History, raw: Raw)
      requires StagedNow(before, after, history, remembered, raw)
      ensures AddsRelease(Current(before), Current(after), raw.value.value.sequence, Record(Digest(raw), raw.value.value.version))
    {
      CommandsDo(Current(before), raw.value.value.sequence, RecordOf(raw, raw.value.value));
    }

    static lemma CurrentOk(index: Option<Index>, releases: Releases, history: History)
      requires DiskOk(index, releases, history)
      ensures IndexOk(Current(index))
      ensures index.None? ==> releases == map[] && history == map[]
    {
    }

    static lemma NewStore(releases: Releases, history: History)
      requires releases == map[] && history == map[]
      ensures DiskOk(Some(NewIndex), releases, history)
    {
    }

    static lemma SnapshotIsComplete(raw: Raw, manifest: Manifest)
      requires Decoded(raw) == Some(manifest)
      ensures Complete(Snapshot(raw, manifest), manifest.sequence, RecordOf(raw, manifest))
    {
    }

    /** Selects a reviewed release, never an older one than the one in use. */
    method Select(sequence: Sequence, reviewed: Digest) returns (outcome: Outcome)
      requires Valid() && !disk.stopped
      modifies this`history, disk`index, disk`drafts, disk`faults, disk`stopped
      ensures Valid() && history == old(history)
      ensures Current(disk.index) == Current(old(disk.index)) || Current(disk.index) == Selected(Current(old(disk.index)), sequence)
      ensures outcome == Fine ==> Current(disk.index) == Selected(Current(old(disk.index)), sequence)
      ensures outcome == Fine ==> Chooses(Current(old(disk.index)), Current(disk.index), sequence)
      ensures outcome == Refused ==> disk.index == old(disk.index)
      ensures Answered(outcome)
      ensures disk.faults == old(disk.faults) ==>
                outcome == if Selectable(Current(old(disk.index)), sequence, reviewed, minimum) then Fine else Refused
    {
      hide DiskOk, Complete;
      CurrentOk(disk.index, disk.releases, history);
      var index := Current(disk.index);
      if sequence < minimum || sequence > LastSequence || sequence !in index.releases { return Refused; }
      if index.selected.Some? && sequence < index.selected.value { return Refused; }
      if index.releases[sequence].hash != reviewed { return Refused; }
      var seen := disk.Touch();
      if seen != Done { return if seen == Raised then Broken else Dead; }
      CommandsDo(index, sequence, index.releases[sequence]);
      if index.selected == Some(sequence) { return Fine; }
      ChangeKeeps(disk.index, disk.releases, history, Selected(index, sequence)) by { SelectedOk(index, sequence); }
      var saved := Save(Selected(index, sequence), history);
      return if saved == Done then Fine else if saved == Raised then Broken else Dead;
    }

    static predicate Selectable(index: Index, sequence: Sequence, reviewed: Digest, minimum: Sequence) {
      && minimum <= sequence <= LastSequence && sequence in index.releases
      && (index.selected.Some? ==> index.selected.value <= sequence)
      && index.releases[sequence].hash == reviewed
    }

    /** Another choice among the same releases. */
    static lemma ChangeKeeps(index: Option<Index>, releases: Releases, history: History, next: Index)
      requires DiskOk(index, releases, history) && index.Some? && IndexOk(next)
      requires next.releases == index.value.releases && next.highest == index.value.highest
      ensures DiskOk(Some(next), releases, history)
    {
    }

    /** Goes back to the selection before the last. */
    method Rollback() returns (outcome: Outcome)
      requires Valid() && !disk.stopped
      modifies this`history, disk`index, disk`drafts, disk`faults, disk`stopped
      ensures Valid() && history == old(history)
      ensures Current(disk.index) == Current(old(disk.index)) || Current(disk.index) == RolledBack(Current(old(disk.index)))
      ensures outcome == Fine ==> Current(disk.index) == RolledBack(Current(old(disk.index)))
      ensures outcome == Fine ==> GoesBack(Current(old(disk.index)), Current(disk.index))
      ensures outcome == Refused ==> disk.index == old(disk.index)
      ensures Answered(outcome)
      ensures disk.faults == old(disk.faults) ==>
                outcome == if Current(old(disk.index)).previous.Some? && Current(old(disk.index)).previous.value >= minimum
                           then Fine else Refused
    {
      hide DiskOk, Complete;
      CurrentOk(disk.index, disk.releases, history);
      var index := Current(disk.index);
      if index.previous.None? || index.previous.value < minimum || index.previous.value > LastSequence { return Refused; }
      var seen := disk.Touch();
      if seen != Done { return if seen == Raised then Broken else Dead; }
      ChangeKeeps(disk.index, disk.releases, history, RolledBack(index)) by { RolledBackOk(index); }
      var saved := Save(RolledBack(index), history);
      return if saved == Done then Fine else if saved == Raised then Broken else Dead;
    }

    /** Drops an old release: out of the index first, then file by file from the disk. */
    method Prune(sequence: Sequence) returns (outcome: Outcome)
      requires Valid() && !disk.stopped
      modifies this`history, disk
      ensures Valid() && history == old(history)
      ensures Current(disk.index) == Current(old(disk.index)) || Current(disk.index) == Pruned(Current(old(disk.index)), sequence)
      ensures outcome == Fine ==> Current(disk.index) == Pruned(Current(old(disk.index)), sequence) && Release(sequence) !in disk.releases
      ensures outcome == Fine ==> DropsRelease(Current(old(disk.index)), Current(disk.index), sequence)
      ensures disk.releases - {Release(sequence)} == old(disk.releases) - {Release(sequence)}
      ensures outcome == Refused ==> disk.index == old(disk.index)
      ensures Answered(outcome)
      ensures disk.faults == old(disk.faults) ==>
                outcome == if Prunable(Current(old(disk.index)), sequence) then Fine else Refused
    {
      hide DiskOk, Complete;
      CurrentOk(disk.index, disk.releases, history);
      var index := Current(disk.index);
      if Some(sequence) == index.selected || Some(sequence) == index.previous || sequence == index.highest { return Refused; }
      if sequence !in index.releases { return Refused; }
      var seen := disk.Touch();
      if seen != Done { return if seen == Raised then Broken else Dead; }
      PruneKeeps(disk.index, disk.releases, history, sequence);
      CommandsDo(index, sequence, index.releases[sequence]);
      var saved := Save(Pruned(index, sequence), history);
      if saved != Done { return if saved == Raised then Broken else Dead; }
      var removed := RemoveTree(Release(sequence));
      if removed == Done { removed := disk.Touch(); }
      return if removed == Done then Fine else if removed == Raised then Broken else Dead;
    }

    static predicate Prunable(index: Index, sequence: Sequence) {
      && sequence in index.releases && sequence != index.highest
      && Some(sequence) != index.selected && Some(sequence) != index.previous
    }

    static lemma PruneKeeps(index: Option<Index>, releases: Releases, history: History, sequence: Sequence)
      requires DiskOk(index, releases, history) && index.Some? && Prunable(index.value, sequence)
      ensures DiskOk(Some(Pruned(index.value, sequence)), releases, history)
      ensures Release(sequence) in releases
    {
      PrunedOk(index.value, sequence);
    }

    // ----- whole lives ------------------------------------------------------------------------

    /**
      * Any commands, with any failures, and with the machine stopping anywhere: the disk can always be read
      * back, the highest sequence never falls, and a sequence keeps the manifest it was first given.
      */
    method Serve(commands: seq<Command>)
      requires Valid()
      modifies this`history, disk
      ensures Valid()
      ensures Current(old(disk.index)).highest <= Current(disk.index).highest
      ensures forall sequence :: sequence in old(history) ==> sequence in history && history[sequence] == old(history)[sequence]
    {
      hide DiskOk, Complete, IndexOk;
      for i := 0 to |commands|
        invariant Valid()
        invariant Current(old(disk.index)).highest <= Current(disk.index).highest
        invariant forall sequence :: sequence in old(history) ==> sequence in history && history[sequence] == old(history)[sequence]
      {
        disk.Restart();
        match commands[i]
        case StageCommand(raw, timely, number) =>
          if Staging(number) !in disk.releases { var outcome := Stage(raw, timely, number); }
        case SelectCommand(sequence, reviewed) => var outcome := Select(sequence, reviewed);
        case RollbackCommand => var outcome := Rollback();
        case PruneCommand(sequence) => var outcome := Prune(sequence);
      }
    }
  }

  datatype Command =
    | StageCommand(raw: Raw, timely: bool, number: nat)
    | SelectCommand(sequence: Sequence, reviewed: Digest)
    | RollbackCommand
    | PruneCommand(sequence: Sequence)

  /** A stage that stopped after its release was whole is finished by repeating it. */
  lemma RepeatFinishesStage(index: Index, releases: Releases, raw: Raw, timely: bool)
    requires StageOutcome(index, releases, raw, timely) == Fine
    ensures var manifest := Decoded(raw).value;
            StageOutcome(index, releases[Release(manifest.sequence) := Snapshot(raw, manifest)], raw, timely) == Fine
    ensures var manifest := Decoded(raw).value;
            var staged := Staged(index, manifest.sequence, RecordOf(raw, manifest));
            StageOutcome(staged, releases, raw, timely) == Unchanged
  {
  }

  /** An orphan left by a stopped stage keeps every other manifest of its sequence out, and only its own in. */
  lemma OrphanDecides(index: Index, releases: Releases, first: Raw, second: Raw)
    requires Decoded(first).Some? && Decoded(second).Some? && Decoded(first).value.sequence == Decoded(second).value.sequence
    requires Release(Decoded(first).value.sequence) in releases
    requires releases[Release(Decoded(first).value.sequence)] == Snapshot(first, Decoded(first).value)
    requires Decoded(first).value.sequence !in index.releases && |index.releases| < ReleaseLimit
    requires index.highest <= Decoded(first).value.sequence
    ensures StageOutcome(index, releases, second, true) == Fine <==> first == second
  {
  }
}
