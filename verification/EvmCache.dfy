/** Suspended EVM frames: the storage each of them caches, and the node's storage behind them. */
module EvmCache {
  import opened Options

  datatype Slot = Slot(address: nat, key: nat)

  type Storages = map<Slot, nat>

  /** What matters of a `Continuation`: whose code runs, in which mode, and the slots it has written. */
  datatype Frame = Frame(address: nat, isStatic: bool, cache: Storages)

  /** `Continuations`. */
  datatype Table = Table(frames: map<nat, Frame>, last: nat)

  function Inserted(t: Table, f: Frame): Table {
    Table(t.frames[t.last + 1 := f], t.last + 1)
  }

  function Removed(t: Table, id: nat): Table {
    t.(frames := t.frames - {id})
  }

  /** A frame's slots that `updates` mentions take the new value; no slot is added. */
  function Patched(f: Frame, updates: Storages): Frame {
    f.(cache := map s | s in f.cache :: if s in updates then updates[s] else f.cache[s])
  }

  function PatchAll(t: Table, updates: Storages): Table {
    t.(frames := map id | id in t.frames :: Patched(t.frames[id], updates))
  }

  /** What an exit does to the waiting frames. */
  function Published(t: Table, slots: Storages, isStatic: bool): Table {
    if isStatic then t else PatchAll(t, slots)
  }

  lemma PatchTwice(t: Table, a: Storages, b: Storages)
    ensures PatchAll(PatchAll(t, a), b) == PatchAll(t, a + b)
  {
    forall id | id in t.frames
      ensures Patched(Patched(t.frames[id], a), b) == Patched(t.frames[id], a + b)
    {
      assert Patched(Patched(t.frames[id], a), b).cache == Patched(t.frames[id], a + b).cache;
    }
  }

  lemma PatchNothing(t: Table)
    ensures PatchAll(t, map[]) == t
  {
    forall id | id in t.frames
      ensures Patched(t.frames[id], map[]) == t.frames[id]
    {
      assert Patched(t.frames[id], map[]).cache == t.frames[id].cache;
    }
  }

  lemma PublishTwice(t: Table, a: Storages, slot: Slot, value: nat, isStatic: bool)
    ensures Published(Published(t, a, isStatic), map[slot := value], isStatic) ==
      Published(t, a[slot := value], isStatic)
  {
    PatchTwice(t, a, map[slot := value]);
    assert a + map[slot := value] == a[slot := value];
  }

  lemma PublishNothing(t: Table, isStatic: bool)
    ensures Published(t, map[], isStatic) == t
  {
    PatchNothing(t);
  }

  /** The slots of an exit come as a list of entries. */
  function FromEntries(entries: seq<(Slot, nat)>): Storages {
    if entries == [] then map[]
    else FromEntries(entries[..|entries| - 1])[entries[|entries| - 1].0 := entries[|entries| - 1].1]
  }

  class Continuations {
    var storage: map<nat, Frame>
    var nextContinuationId: nat

    ghost function View(): Table
      reads this
    {
      Table(storage, nextContinuationId)
    }

    constructor ()
      ensures View() == Table(map[], 0)
    {
      storage, nextContinuationId := map[], 0;
    }

    method CreateContinuation(f: Frame) returns (id: nat)
      modifies this
      ensures View() == Inserted(old(View()), f) && id == View().last
    {
      nextContinuationId := nextContinuationId + 1;
      storage := storage[nextContinuationId := f];
      id := nextContinuationId;
    }

    method GetContinuation(id: nat) returns (f: Option<Frame>)
      modifies this
      ensures f == if id in old(storage) then Some(old(storage)[id]) else None
      ensures View() == Removed(old(View()), id)
    {
      f := if id in storage then Some(storage[id]) else None;
      storage := storage - {id};
    }

    /** Visits every continuation and overwrites the slot where it is cached. */
    method UpdateStates(slot: Slot, value: nat, skip: bool)
      modifies this
      ensures View() == Published(old(View()), map[slot := value], skip)
    {
      if skip {
        return;
      }
      ghost var before := storage;
      var todo := storage.Keys;
      while todo != {}
        invariant todo <= before.Keys == storage.Keys && nextContinuationId == old(nextContinuationId)
        invariant forall id :: id in before ==>
          storage[id] == if id in todo then before[id] else Patched(before[id], map[slot := value])
        decreases |todo|
      {
        var id :| id in todo;
        if slot in storage[id].cache {
          storage := storage[id := storage[id].(cache := storage[id].cache[slot := value])];
        }
        assert storage[id].cache == Patched(before[id], map[slot := value]).cache;
        todo := todo - {id};
      }
      assert storage == PatchAll(old(View()), map[slot := value]).frames;
    }

    /** The loop over the slots of a finished frame. */
    method PublishExit(entries: seq<(Slot, nat)>, isStatic: bool)
      modifies this
      ensures View() == Published(old(View()), FromEntries(entries), isStatic)
    {
      ghost var t0 := View();
      PublishNothing(t0, isStatic);
      for i := 0 to |entries|
        invariant View() == Published(t0, FromEntries(entries[..i]), isStatic)
      {
        PublishTwice(t0, FromEntries(entries[..i]), entries[i].0, entries[i].1, isStatic);
        UpdateStates(entries[i].0, entries[i].1, isStatic);
        assert entries[..i + 1][..i] == entries[..i];
      }
      assert entries[..|entries|] == entries;
    }
  }
}
