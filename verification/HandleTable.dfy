/** The table of script resources: slots are reused, handles never are. */
module HandleTable {
  type Id = nat
  type Value = nat

  const SlotLimit: nat := 4095
  const MaxGeneration: nat := 0x7_FFFF

  datatype Option<T> = None | Some(value: T)

  /** A slot; an owner of zero leaves it empty. */
  datatype Entry = Entry(generation: nat, kind: nat, owner: nat, value: Value)

  datatype Binding = Binding(owner: nat, kind: nat, value: Value)

  // ----- the bits of a handle -------------------------------------------------------------

  /** Twelve bits of slot and nineteen of generation do not meet, and leave the sign bit clear. */
  lemma HandleBits(generation: bv32, slot: bv32)
    requires 1 <= generation <= 0x7_FFFF && 1 <= slot <= 4095
    ensures ((generation << 12) | slot) & 4095 == slot
    ensures ((generation << 12) | slot) >> 12 == generation
    ensures 0x1000 < (generation << 12) | slot < 0x8000_0000
  {
  }

  function IdOf(generation: nat, index: nat): Id {
    generation * 4096 + index + 1
  }

  /** Joining the bits of a handle is adding them, and the generation's share is its multiple of 4096. */
  lemma HandleSum(generation: bv32, slot: bv32)
    requires generation <= 0x7_FFFF && slot <= 4095
    ensures (generation << 12) | slot == (generation << 12) + slot
    ensures (generation << 12) as nat == generation as nat * 4096
  {
  }

  function SlotOf(id: Id): nat {
    id % 4096
  }

  function GenerationOf(id: Id): nat {
    id / 4096
  }

  lemma IdParts(generation: nat, index: nat)
    requires index < SlotLimit
    ensures SlotOf(IdOf(generation, index)) == index + 1 && GenerationOf(IdOf(generation, index)) == generation
    ensures generation <= MaxGeneration ==> IdOf(generation, index) < 0x8000_0000
  {
  }

  // ----- what the table stands for ----------------------------------------------------------

  predicate Wellformed(entries: seq<Entry>) {
    && |entries| <= SlotLimit
    && forall i :: 0 <= i < |entries| ==>
         && 1 <= entries[i].generation <= MaxGeneration
         && (entries[i].owner == 0 <==> entries[i].kind == 0)
  }

  /** The slot a handle leads to, when the handle is not stale. */
  predicate Leads(entries: seq<Entry>, id: Id, index: nat) {
    index < |entries| && entries[index].owner != 0 && id == IdOf(entries[index].generation, index)
  }

  function BindingOf(entry: Entry): Binding {
    Binding(entry.owner, entry.kind, entry.value)
  }

  /** The live handles and what they stand for. */
  function Live(entries: seq<Entry>): map<Id, Binding> {
    map id | id in LiveIds(entries) :: BindingAt(entries, id)
  }

  function LiveIds(entries: seq<Entry>): set<Id> {
    set i | 0 <= i < |entries| && entries[i].owner != 0 :: IdOf(entries[i].generation, i)
  }

  function BindingAt(entries: seq<Entry>, id: Id): Binding {
    var slot := SlotOf(id);
    if 0 < slot <= |entries| then BindingOf(entries[slot - 1]) else Binding(0, 0, 0)
  }

  lemma LiveAt(entries: seq<Entry>, index: nat)
    requires Wellformed(entries) && index < |entries|
    ensures var id := IdOf(entries[index].generation, index);
            (id in Live(entries) <==> entries[index].owner != 0) &&
            (id in Live(entries) ==> Live(entries)[id] == BindingOf(entries[index]))
  {
    var id := IdOf(entries[index].generation, index);
    IdParts(entries[index].generation, index);
    if id in Live(entries) {
      var i :| 0 <= i < |entries| && entries[i].owner != 0 && IdOf(entries[i].generation, i) == id;
      IdParts(entries[i].generation, i);
    }
  }

  /** A live handle leads to its slot. */
  lemma LiveLeads(entries: seq<Entry>, id: Id)
    requires Wellformed(entries)
    ensures id in Live(entries) <==> 0 < SlotOf(id) && Leads(entries, id, SlotOf(id) - 1)
  {
    if id in Live(entries) {
      var i :| 0 <= i < |entries| && entries[i].owner != 0 && IdOf(entries[i].generation, i) == id;
      IdParts(entries[i].generation, i);
    }
    if 0 < SlotOf(id) && Leads(entries, id, SlotOf(id) - 1) { LiveAt(entries, SlotOf(id) - 1); }
  }

  /** Every handle ever given out: all generations up to each slot's own. */
  predicate Issued(entries: seq<Entry>, id: Id) {
    var slot, generation := SlotOf(id), GenerationOf(id);
    0 < slot <= |entries| && 1 <= generation <= entries[slot - 1].generation
  }

  /** A slot that can take a value. */
  predicate Free(entry: Entry) {
    entry.owner == 0 && entry.generation != MaxGeneration
  }

  /** Every slot there can be is taken or worn out. */
  predicate Exhausted(entries: seq<Entry>) {
    |entries| >= SlotLimit && forall i :: 0 <= i < |entries| ==> !Free(entries[i])
  }

  function Put(entries: seq<Entry>, index: nat, entry: Entry): seq<Entry>
    requires index <= |entries|
  {
    if index < |entries| then entries[index := entry] else entries + [entry]
  }

  /** Filling a slot issues exactly one handle, never issued before, and makes it live. */
  lemma FillKeeps(entries: seq<Entry>, index: nat, entry: Entry)
    requires Wellformed(entries) && index <= |entries| && index < SlotLimit
    requires index < |entries| ==> entries[index].owner == 0
    requires entry.generation == (if index < |entries| then entries[index].generation + 1 else 1) <= MaxGeneration
    requires entry.owner != 0 && entry.kind != 0
    ensures Wellformed(Put(entries, index, entry))
    ensures var id := IdOf(entry.generation, index);
            && !Issued(entries, id) && 0 < id < 0x8000_0000
            && Live(Put(entries, index, entry)) == Live(entries)[id := BindingOf(entry)]
            && forall other :: Issued(Put(entries, index, entry), other) <==> Issued(entries, other) || other == id
  {
    var id, after := IdOf(entry.generation, index), Put(entries, index, entry);
    IdParts(entry.generation, index);
    FillLive(entries, index, entry);
    forall other ensures Issued(after, other) <==> Issued(entries, other) || other == id {
      if SlotOf(other) == index + 1 && GenerationOf(other) == entry.generation { assert other == id; }
    }
  }

  lemma FillLive(entries: seq<Entry>, index: nat, entry: Entry)
    requires Wellformed(entries) && index <= |entries| && index < SlotLimit
    requires index < |entries| ==> entries[index].owner == 0
    requires 1 <= entry.generation <= MaxGeneration && entry.owner != 0 && entry.kind != 0
    ensures Wellformed(Put(entries, index, entry))
    ensures Live(Put(entries, index, entry)) == Live(entries)[IdOf(entry.generation, index) := BindingOf(entry)]
  {
    hide Live, Put, IdOf, SlotOf, BindingOf;
    FillWellformed(entries, index, entry);
    forall other { FillLiveAt(entries, index, entry, other); }
  }

  lemma FillWellformed(entries: seq<Entry>, index: nat, entry: Entry)
    requires Wellformed(entries) && index <= |entries| && index < SlotLimit
    requires 1 <= entry.generation <= MaxGeneration && entry.owner != 0 && entry.kind != 0
    ensures Wellformed(Put(entries, index, entry))
  {
  }

  lemma FillLiveAt(entries: seq<Entry>, index: nat, entry: Entry, other: Id)
    requires Wellformed(entries) && index <= |entries| && index < SlotLimit && Wellformed(Put(entries, index, entry))
    requires index < |entries| ==> entries[index].owner == 0
    requires entry.owner != 0
    ensures var id, after := IdOf(entry.generation, index), Put(entries, index, entry);
            && (other in Live(after) <==> other in Live(entries) || other == id)
            && (other in Live(after) ==> Live(after)[other] == if other == id then BindingOf(entry) else Live(entries)[other])
  {
    hide Live;
    var after := Put(entries, index, entry);
    IdParts(entry.generation, index);
    LiveLeads(after, other);
    LiveLeads(entries, other);
    if other in Live(after) {
      LiveAt(after, SlotOf(other) - 1);
      if other != IdOf(entry.generation, index) { LiveAt(entries, SlotOf(other) - 1); }
    }
  }

  /** Emptying slots takes away exactly their handles; what was issued stays issued. */
  lemma EmptyKeeps(entries: seq<Entry>, after: seq<Entry>)
    requires Wellformed(entries) && |after| == |entries|
    requires forall i :: 0 <= i < |entries| ==> after[i] == entries[i] || after[i] == Emptied(entries[i])
    ensures Wellformed(after)
    ensures forall id :: id in Live(after) <==> id in Live(entries) && Kept(entries, after, id)
    ensures forall id :: id in Live(after) ==> id in Live(entries) && Live(after)[id] == Live(entries)[id]
    ensures forall id :: Issued(after, id) <==> Issued(entries, id)
  {
    hide Live;
    forall id ensures id in Live(after) <==> id in Live(entries) && Kept(entries, after, id) {
      LiveLeads(entries, id);
      LiveLeads(after, id);
    }
    forall id | id in Live(after) ensures id in Live(entries) && Live(after)[id] == Live(entries)[id] {
      LiveLeads(entries, id);
      LiveLeads(after, id);
      LiveAt(entries, SlotOf(id) - 1);
      LiveAt(after, SlotOf(id) - 1);
    }
  }

  /** The slot of a handle was left alone. */
  predicate Kept(before: seq<Entry>, after: seq<Entry>, id: Id) {
    0 < SlotOf(id) <= |before| && SlotOf(id) <= |after| && after[SlotOf(id) - 1] == before[SlotOf(id) - 1]
  }

  function Emptied(entry: Entry): Entry {
    Entry(entry.generation, 0, 0, 0)
  }

  // ----- the table ----------------------------------------------------------------------------

  class Handles {
    var entries: seq<Entry>

    ghost predicate Valid()
      reads this
    {
      Wellformed(entries)
    }

    constructor ()
      ensures Valid() && Live(entries) == map[] && forall id :: !Issued(entries, id)
    {
      entries := [];
    }

    /** The first slot that can take a value, or the next new one. */
    method FirstFree() returns (index: nat)
      requires Valid()
      ensures index <= |entries| && (index < |entries| ==> Free(entries[index]))
      ensures forall i :: 0 <= i < index ==> !Free(entries[i])
    {
      index := 0;
      while index < |entries| && !Free(entries[index])
        invariant index <= |entries| && forall i :: 0 <= i < index ==> !Free(entries[i])
      {
        index := index + 1;
      }
    }

    /** Gives out a handle that was never given out before; fails only when every slot is taken or worn out. */
    method Add(owner: nat, kind: nat, value: Value) returns (added: Option<Id>)
      requires Valid()
      modifies this
      ensures Valid()
      ensures added.None? <==> owner == 0 || kind == 0 || Exhausted(old(entries))
      ensures added.None? ==> entries == old(entries)
      ensures added.Some? ==>
                && !Issued(old(entries), added.value) && 0 < added.value < 0x8000_0000
                && Live(entries) == Live(old(entries))[added.value := Binding(owner, kind, value)]
                && forall id :: Issued(entries, id) <==> Issued(old(entries), id) || id == added.value
    {
      if owner == 0 || kind == 0 { return None; }
      hide Live, Issued;
      var index := FirstFree();
      if index >= SlotLimit { return None; }
      var generation := if index < |entries| then entries[index].generation + 1 else 1;
      var entry := Entry(generation, kind, owner, value);
      FillKeeps(entries, index, entry);
      entries := if index < |entries| then entries[index := entry] else entries + [entry];
      return Some(IdOf(generation, index));
    }

    /** What a handle stands for, to its owner. */
    method Get(id: int, owner: nat, kind: nat) returns (value: Option<Value>)
      requires Valid()
      ensures value.Some? <==> id > 0 && owner != 0 && id in Live(entries) && Live(entries)[id].owner == owner && Live(entries)[id].kind == kind
      ensures value.Some? ==> value.value == Live(entries)[id].value
    {
      if id <= 0 { return None; }
      var slot := SlotOf(id);
      LiveLeads(entries, id);
      if slot == 0 || slot > |entries| { return None; }
      LiveAt(entries, slot - 1);
      IdParts(entries[slot - 1].generation, slot - 1);
      var entry := entries[slot - 1];
      if owner == 0 || entry.owner != owner || entry.kind != kind || entry.generation != GenerationOf(id) { return None; }
      return Some(entry.value);
    }

    /** Takes a handle away from its owner, for good. */
    method Remove(id: int, owner: nat, kind: nat) returns (removed: bool)
      requires Valid()
      modifies this
      ensures Valid()
      ensures removed <==> id > 0 && owner != 0 && id in Live(old(entries)) &&
                           Live(old(entries))[id].owner == owner && Live(old(entries))[id].kind == kind
      ensures Live(entries) == if removed then Live(old(entries)) - {id} else Live(old(entries))
      ensures forall other :: Issued(entries, other) <==> Issued(old(entries), other)
    {
      hide Live, Issued;
      var found := Get(id, owner, kind);
      if found.None? { return false; }
      LiveLeads(entries, id);
      var index := SlotOf(id) - 1;
      var after := entries[index := Emptied(entries[index])];
      EmptyKeeps(entries, after);
      OneGone(entries, after, id);
      entries := after;
      return true;
    }

    static lemma OneGone(before: seq<Entry>, after: seq<Entry>, id: Id)
      requires Wellformed(before) && Wellformed(after) && id in Live(before)
      requires 0 < SlotOf(id) <= |before| && after == before[SlotOf(id) - 1 := Emptied(before[SlotOf(id) - 1])]
      requires forall other :: other in Live(after) <==> other in Live(before) && Kept(before, after, other)
      requires forall other :: other in Live(after) ==> other in Live(before) && Live(after)[other] == Live(before)[other]
      ensures Live(after) == Live(before) - {id}
    {
      hide Live;
      forall other ensures other in Live(after) <==> other in Live(before) && other != id {
        LiveLeads(before, other);
        LiveLeads(before, id);
      }
    }

    /** The handles of an owner, of one kind or (with zero) of any. */
    method Owned(owner: nat, kind: nat) returns (ids: seq<Id>)
      requires Valid()
      ensures forall id :: id in ids <==> (owner != 0 && id in Live(entries) && GoesBinding(Live(entries)[id], owner, kind))
      ensures forall i, j :: 0 <= i < j < |ids| ==> ids[i] != ids[j]
    {
      hide Live;
      ids := [];
      if owner == 0 { return; }
      LiveSlots(entries);
      for i := 0 to |entries|
        invariant forall j :: 0 <= j < |ids| ==> 0 < SlotOf(ids[j]) <= i && ids[j] in Live(entries)
        invariant forall j, k :: 0 <= j < k < |ids| ==> SlotOf(ids[j]) < SlotOf(ids[k])
        invariant forall id :: id in ids <==> (id in Live(entries) && SlotOf(id) <= i && GoesBinding(Live(entries)[id], owner, kind))
      {
        var entry := entries[i];
        LiveAt(entries, i);
        IdParts(entry.generation, i);
        OnlyOneLeads(entries, i);
        if entry.owner == owner && (kind == 0 || entry.kind == kind) {
          ids := ids + [IdOf(entry.generation, i)];
        }
      }
    }

    static lemma OnlyOneLeads(entries: seq<Entry>, index: nat)
      requires Wellformed(entries) && index < |entries|
      ensures forall id :: id in Live(entries) && SlotOf(id) == index + 1 ==> id == IdOf(entries[index].generation, index)
    {
      hide Live;
      forall id | id in Live(entries) && SlotOf(id) == index + 1 ensures id == IdOf(entries[index].generation, index) {
        LiveLeads(entries, id);
      }
    }

    static lemma LiveSlots(entries: seq<Entry>)
      requires Wellformed(entries)
      ensures forall id :: id in Live(entries) ==> 0 < SlotOf(id) <= |entries|
    {
      hide Live;
      forall id | id in Live(entries) ensures 0 < SlotOf(id) <= |entries| { LiveLeads(entries, id); }
    }

    /** Takes away everything of an owner, of one kind or (with zero) of any. */
    method Retire(owner: nat, kind: nat)
      requires Valid()
      modifies this
      ensures Valid()
      ensures forall id :: id in Live(entries) <==> (id in Live(old(entries)) && !GoesBinding(Live(old(entries))[id], owner, kind))
      ensures forall id :: id in Live(entries) ==> Live(entries)[id] == Live(old(entries))[id]
      ensures forall id :: Issued(entries, id) <==> Issued(old(entries), id)
    {
      hide Live, Issued;
      ghost var before := entries;
      for i := 0 to |entries|
        invariant |entries| == |before|
        invariant forall j :: 0 <= j < i ==>
                    entries[j] == if Goes(before[j], owner, kind) then Emptied(before[j]) else before[j]
        invariant forall j :: i <= j < |before| ==> entries[j] == before[j]
      {
        if Goes(entries[i], owner, kind) { entries := entries[i := Emptied(entries[i])]; }
      }
      EmptyKeeps(before, entries);
      forall id ensures id in Live(entries) <==> id in Live(before) && !GoesBinding(Live(before)[id], owner, kind) {
        LiveLeads(before, id);
        if id in Live(before) { LiveAt(before, SlotOf(id) - 1); }
      }
    }

    static predicate Goes(entry: Entry, owner: nat, kind: nat) {
      entry.owner == owner && (kind == 0 || entry.kind == kind)
    }

    static predicate GoesBinding(binding: Binding, owner: nat, kind: nat) {
      binding.owner == owner && (kind == 0 || binding.kind == kind)
    }

    /** How many handles are live. */
    method Count() returns (count: nat)
      requires Valid()
      ensures count == |Live(entries)|
    {
      count := 0;
      for i := 0 to |entries|
        invariant count == |LiveIds(entries[..i])|
      {
        CountOne(entries, i);
        if entries[i].owner != 0 { count := count + 1; }
      }
      assert entries[..|entries|] == entries;
      assert Live(entries).Keys == LiveIds(entries);
      assert |Live(entries)| == |Live(entries).Keys|;
    }

    static lemma CountOne(entries: seq<Entry>, index: nat)
      requires Wellformed(entries) && index < |entries|
      ensures |LiveIds(entries[..index + 1])| == |LiveIds(entries[..index])| + (if entries[index].owner != 0 then 1 else 0)
    {
      var before, after := entries[..index], entries[..index + 1];
      var id := IdOf(entries[index].generation, index);
      assert after == before + [entries[index]];
      if id in LiveIds(before) {
        var i :| 0 <= i < |before| && before[i].owner != 0 && IdOf(before[i].generation, i) == id;
        IdParts(before[i].generation, i);
        IdParts(entries[index].generation, index);
      }
      assert LiveIds(after) == LiveIds(before) + (if entries[index].owner != 0 then {id} else {});
    }
  }
}
