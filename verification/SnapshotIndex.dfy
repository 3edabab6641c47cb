/** The index of a snapshot store, its validity, and what each command makes of it. */
module SnapshotIndex {
  datatype Option<T> = None | Some(value: T)

  type Sequence = nat
  type FileName = string
  type Content = string
  type Files = map<FileName, Content>

  datatype Manifest = Manifest(sequence: Sequence, version: string, files: Files)

  /** The bytes of a manifest with what they decode to under the store's configuration. */
  datatype Raw = Raw(text: string, value: Option<Manifest>)

  /** A manifest that passes every check but its age. */
  function Decoded(raw: Raw): Option<Manifest> {
    if raw.value.Some? && 0 < raw.value.value.sequence <= LastSequence then raw.value else None
  }

  /** The digest of some bytes; different bytes have different digests. */
  datatype Digest = Digest(of: Raw)

  datatype Record = Record(hash: Digest, version: string)

  datatype Index = Index(highest: Sequence, selected: Option<Sequence>, previous: Option<Sequence>,
                         releases: map<Sequence, Record>)

  const ReleaseLimit: nat := 16
  const LastSequence: nat := 0x7FFF_FFFF_FFFF_FFFF

  const NewIndex := Index(0, None, None, map[])

  /** The highest sequence is the largest staged one. */
  predicate HighestOk(index: Index) {
    && (forall sequence :: sequence in index.releases ==> 0 < sequence <= index.highest)
    && if index.releases == map[] then index.highest == 0 else index.highest in index.releases
  }

  predicate ChoiceOk(index: Index, choice: Option<Sequence>) {
    choice.Some? ==> choice.value in index.releases
  }

  /** What reading the index back insists on. */
  predicate IndexOk(index: Index) {
    && |index.releases| <= ReleaseLimit
    && index.highest <= LastSequence
    && HighestOk(index)
    && ChoiceOk(index, index.selected) && ChoiceOk(index, index.previous)
  }

  function Staged(index: Index, sequence: Sequence, record: Record): Index {
    index.(highest := sequence, releases := index.releases[sequence := record])
  }

  function Selected(index: Index, sequence: Sequence): Index {
    if index.selected == Some(sequence) then index
    else index.(previous := index.selected, selected := Some(sequence))
  }

  function RolledBack(index: Index): Index {
    index.(selected := index.previous, previous := index.selected)
  }

  function Pruned(index: Index, sequence: Sequence): Index {
    index.(releases := index.releases - {sequence})
  }

  // ----- what each command changes --------------------------------------------------------------

  /** The other releases are as they were. */
  predicate SameBut(before: Index, after: Index, sequence: Sequence) {
    after.releases - {sequence} == before.releases - {sequence}
  }

  /** Staging adds one release, the highest, and leaves the choice alone. */
  predicate AddsRelease(before: Index, after: Index, sequence: Sequence, record: Record) {
    && sequence in after.releases && after.releases[sequence] == record && after.highest == sequence
    && after.selected == before.selected && after.previous == before.previous && SameBut(before, after, sequence)
  }

  /** Selecting remembers the old choice as the previous one, and leaves the releases alone. */
  predicate Chooses(before: Index, after: Index, sequence: Sequence) {
    && after.selected == Some(sequence) && after.highest == before.highest && after.releases == before.releases
    && after.previous == if before.selected == Some(sequence) then before.previous else before.selected
  }

  /** Rolling back exchanges the two choices, and leaves the releases alone. */
  predicate GoesBack(before: Index, after: Index) {
    && after.selected == before.previous && after.previous == before.selected
    && after.highest == before.highest && after.releases == before.releases
  }

  /** Pruning takes one release away, and leaves the choices, the highest sequence and every other release alone. */
  predicate DropsRelease(before: Index, after: Index, sequence: Sequence) {
    && sequence !in after.releases && after.highest == before.highest
    && after.selected == before.selected && after.previous == before.previous && SameBut(before, after, sequence)
  }

  lemma CommandsDo(index: Index, sequence: Sequence, record: Record)
    ensures AddsRelease(index, Staged(index, sequence, record), sequence, record)
    ensures Chooses(index, Selected(index, sequence), sequence)
    ensures GoesBack(index, RolledBack(index))
    ensures DropsRelease(index, Pruned(index, sequence), sequence)
  {
  }

  /** A manifest is decoded exactly when its bytes are one and its sequence fits. */
  lemma DecodedIs(raw: Raw)
    ensures Decoded(raw).Some? <==> raw.value.Some? && 1 <= raw.value.value.sequence <= 9223372036854775807
    ensures Decoded(raw).Some? ==> Decoded(raw) == raw.value
  {
  }

  lemma StagedSize(releases: map<Sequence, Record>, sequence: Sequence, record: Record)
    ensures |releases[sequence := record]| <= |releases| + 1
  {
    var after := releases[sequence := record];
    assert after.Keys == releases.Keys + {sequence};
    assert |after| == |after.Keys| && |releases| == |releases.Keys|;
    if sequence in releases { assert after.Keys == releases.Keys; }
  }

  lemma StagedOk(index: Index, sequence: Sequence, record: Record)
    requires IndexOk(index) && |index.releases| < ReleaseLimit
    requires index.highest <= sequence <= LastSequence && 0 < sequence
    ensures IndexOk(Staged(index, sequence, record))
  {
    StagedSize(index.releases, sequence, record);
  }

  lemma SelectedOk(index: Index, sequence: Sequence)
    requires IndexOk(index) && sequence in index.releases
    ensures IndexOk(Selected(index, sequence))
  {
  }

  lemma RolledBackOk(index: Index)
    requires IndexOk(index)
    ensures IndexOk(RolledBack(index))
  {
  }

  lemma PrunedOk(index: Index, sequence: Sequence)
    requires IndexOk(index) && sequence in index.releases
    requires Some(sequence) != index.selected && Some(sequence) != index.previous && sequence != index.highest
    ensures IndexOk(Pruned(index, sequence))
  {
    var after := Pruned(index, sequence).releases;
    assert after.Keys == index.releases.Keys - {sequence};
    assert |after| == |after.Keys| && |index.releases| == |index.releases.Keys|;
    assert index.highest in after;
  }

  /** A rollback undoes a selection, and a second rollback undoes the first. */
  lemma RollbackUndoesSelect(index: Index, sequence: Sequence)
    requires index.selected.Some? && index.selected != Some(sequence)
    ensures RolledBack(Selected(index, sequence)).selected == index.selected
    ensures RolledBack(Selected(index, sequence)).previous == Some(sequence)
    ensures RolledBack(RolledBack(index)) == index
  {
  }

  // ----- history ---------------------------------------------------------------------------

  /** Every manifest ever indexed, under its sequence. */
  type History = map<Sequence, Record>

  /** The index speaks for its history: it agrees with it and nothing in it is newer. */
  predicate Remembers(index: Index, history: History) {
    && (forall sequence :: sequence in index.releases ==> sequence in history && history[sequence] == index.releases[sequence])
    && forall sequence :: sequence in history ==> sequence <= index.highest
  }

  /** A sequence that is not indexed but not below the highest has never been used. */
  lemma UnusedSequence(index: Index, history: History, sequence: Sequence)
    requires IndexOk(index) && Remembers(index, history)
    requires sequence !in index.releases && index.highest <= sequence && 0 < sequence
    ensures sequence !in history && index.highest < sequence
  {
  }

  lemma StagedRemembers(index: Index, history: History, sequence: Sequence, record: Record)
    requires IndexOk(index) && Remembers(index, history)
    requires sequence !in index.releases && index.highest <= sequence && 0 < sequence
    ensures sequence !in history
    ensures Remembers(Staged(index, sequence, record), history[sequence := record])
  {
    UnusedSequence(index, history, sequence);
  }
}
