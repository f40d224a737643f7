/** A transaction's EVM frames as a machine: one frame runs, the others wait in the table. */
module EvmFrames {
  import opened Options
  import opened EvmCache

  /** `ids` are the waiting frames, oldest first; the table may hold leftovers of other transactions too. */
  datatype World = World(node: Storages, running: Frame, table: Table, ids: seq<nat>)

  datatype Event =
    | Write(slot: Slot, value: nat)
    | Call(address: nat, isStatic: bool)
    | Create(address: nat)
    | Return
    | Fail

  function Lookup(st: Storages, s: Slot): nat {
    if s in st then st[s] else 0
  }

  /** What SLOAD gives the running frame. */
  function Read(w: World, s: Slot): nat {
    if s in w.running.cache then w.running.cache[s] else Lookup(w.node, s)
  }

  /** The node takes over the slots of the frame's own contract, outside static calls. */
  function Applied(node: Storages, f: Frame): Storages {
    if f.isStatic then node else node + map s | s in f.cache && s.address == f.address :: f.cache[s]
  }

  predicate Enabled(w: World, e: Event) {
    match e
    case Write(s, _) => s.address == w.running.address && !w.running.isStatic
    case Call(_, isStatic) => w.running.isStatic ==> isStatic
    case Create(_) => !w.running.isStatic
    case Return => w.ids != []
    case Fail => w.ids != []
  }

  predicate FrameOk(f: Frame) {
    (forall s :: s in f.cache ==> s.address == f.address) && (f.isStatic ==> f.cache == map[])
  }

  predicate Valid(w: World) {
    && FrameOk(w.running)
    && (forall i :: 0 <= i < |w.ids| ==>
          w.ids[i] in w.table.frames && w.ids[i] <= w.table.last && FrameOk(w.table.frames[w.ids[i]]))
    && (forall i, j :: 0 <= i < j < |w.ids| ==> w.ids[i] != w.ids[j])
  }

  /** The i-th waiting frame. */
  function At(w: World, i: nat): Frame
    requires Valid(w) && i < |w.ids|
  {
    w.table.frames[w.ids[i]]
  }

  /** A trap stores the running frame; `next` starts with nothing cached. */
  function Suspended(w: World, node: Storages, next: Frame): World {
    var table := Inserted(w.table, w.running);
    World(node, next, table, w.ids + [table.last])
  }

  /** An exit publishes the frame's slots to the waiting ones; the youngest of those goes on. */
  function Exited(w: World, node: Storages): World
    requires Valid(w) && w.ids != []
  {
    var table := Published(w.table, w.running.cache, w.running.isStatic);
    var id := w.ids[|w.ids| - 1];
    World(node, table.frames[id], Removed(table, id), w.ids[..|w.ids| - 1])
  }

  /** A call applies what its caller has written so far; a create does not; a failed exit does not either. */
  function Step(w: World, e: Event): World
    requires Valid(w) && Enabled(w, e)
  {
    match e
    case Write(s, v) => w.(running := w.running.(cache := w.running.cache[s := v]))
    case Call(a, isStatic) => Suspended(w, Applied(w.node, w.running), Frame(a, isStatic, map[]))
    case Create(a) => Suspended(w, w.node, Frame(a, false, map[]))
    case Return => Exited(w, Applied(w.node, w.running))
    case Fail => Exited(w, w.node)
  }

  // ---------- coherence ----------

  /** A younger waiting frame caches the slot. */
  predicate Above(w: World, i: nat, s: Slot)
    requires Valid(w)
  {
    exists j: nat :: i < j < |w.ids| && s in At(w, j).cache
  }

  predicate Covered(w: World, i: nat, s: Slot)
    requires Valid(w)
  {
    s in w.running.cache || Above(w, i, s)
  }

  /** A waiting frame's slot is up to date unless a younger frame caches it too. */
  predicate SlotCurrent(w: World, i: nat, s: Slot)
    requires Valid(w) && i < |w.ids| && s in At(w, i).cache
  {
    Covered(w, i, s) || At(w, i).cache[s] == Lookup(w.node, s)
  }

  ghost predicate Current(w: World)
    requires Valid(w)
  {
    forall i: nat, s: Slot :: i < |w.ids| && s in At(w, i).cache ==> SlotCurrent(w, i, s)
  }

  /** The running frame's cache holds nothing the node does not. */
  predicate Clean(w: World) {
    forall s :: s in w.running.cache ==> w.running.cache[s] == Lookup(w.node, s)
  }

  /**
    Whatever the running frame publishes to the first `n` waiting frames on exit is in `node`, or reaches no frame where
    it would be the last word.
  */
  ghost predicate BackedUpTo(w: World, node: Storages, n: nat)
    requires Valid(w) && n <= |w.ids|
  {
    forall i: nat, s: Slot :: i < n && s in At(w, i).cache && s in w.running.cache ==>
      w.running.cache[s] == Lookup(node, s) || Above(w, i, s)
  }

  lemma AppliedIs(node: Storages, f: Frame, s: Slot)
    requires FrameOk(f)
    ensures Lookup(Applied(node, f), s) == if s in f.cache then f.cache[s] else Lookup(node, s)
  {}

  lemma SuspendedStack(w: World, node: Storages, next: Frame)
    requires Valid(w) && FrameOk(next)
    ensures var w' := Suspended(w, node, next);
      && Valid(w')
      && |w'.ids| == |w.ids| + 1
      && (forall i: nat :: i < |w'.ids| ==> At(w', i) == if i < |w.ids| then At(w, i) else w.running)
  {}

  lemma ExitedStack(w: World, node: Storages)
    requires Valid(w) && w.ids != []
    ensures var w' := Exited(w, node);
      && Valid(w')
      && |w'.ids| == |w.ids| - 1
      && (forall i: nat :: i < |w'.ids| ==> At(w', i).cache == Patched(At(w, i), w.running.cache).cache)
      && w'.running.cache == Patched(At(w, |w.ids| - 1), w.running.cache).cache
      && w'.running.address == At(w, |w.ids| - 1).address
  {
    var w' := Exited(w, node);
    var t := Published(w.table, w.running.cache, w.running.isStatic);
    forall i | 0 <= i < |w.ids|
      ensures t.frames[w.ids[i]].cache == Patched(w.table.frames[w.ids[i]], w.running.cache).cache
      ensures FrameOk(t.frames[w.ids[i]])
    {
    }
  }

  /** A frame that goes on has left the table, so it cannot be resumed a second time; no other frame has. */
  lemma ExitRemoves(w: World, e: Event)
    requires Valid(w) && Enabled(w, e) && (e.Return? || e.Fail?)
    ensures Step(w, e).table.frames.Keys == w.table.frames.Keys - {w.ids[|w.ids| - 1]}
    ensures Step(w, e).table.last == w.table.last
  {}

  lemma StepValid(w: World, e: Event)
    requires Valid(w) && Enabled(w, e)
    ensures Valid(Step(w, e))
  {
    match e
    case Write(_, _) =>
    case Call(a, isStatic) => SuspendedStack(w, Applied(w.node, w.running), Frame(a, isStatic, map[]));
    case Create(a) => SuspendedStack(w, w.node, Frame(a, false, map[]));
    case Return => ExitedStack(w, Applied(w.node, w.running));
    case Fail => ExitedStack(w, w.node);
  }

  // ---------- what each event does to it ----------

  lemma WriteKeeps(w: World, s: Slot, v: nat)
    requires Valid(w) && Enabled(w, Write(s, v)) && Current(w)
    ensures Valid(Step(w, Write(s, v))) && Current(Step(w, Write(s, v)))
  {
    var w' := Step(w, Write(s, v));
    StepValid(w, Write(s, v));
    assert forall i: nat :: i < |w.ids| ==> At(w', i) == At(w, i);
    forall i: nat, x: Slot | i < |w'.ids| && x in At(w', i).cache
      ensures SlotCurrent(w', i, x)
    {
      assert SlotCurrent(w, i, x);
      if Covered(w, i, x) {
        KeepCover(w, w', i, x);
      }
    }
  }

  /** Coverage carries over to a world whose frames cache at least the same slots. */
  lemma KeepCover(w: World, w': World, i: nat, s: Slot)
    requires Valid(w) && Valid(w') && |w.ids| <= |w'.ids| && Covered(w, i, s)
    requires forall j: nat :: j < |w.ids| ==> At(w', j) == At(w, j)
    requires w.running.cache.Keys <= w'.running.cache.Keys ||
      (|w.ids| < |w'.ids| && i < |w.ids| && At(w', |w.ids|) == w.running)
    ensures Covered(w', i, s)
  {
    if s in w.running.cache {
      if s !in w'.running.cache {
        assert s in At(w', |w.ids|).cache;
      }
    } else {
      var j: nat :| i < j < |w.ids| && s in At(w, j).cache;
      assert s in At(w', j).cache;
    }
  }

  /** A trap keeps the waiting frames current exactly when the frame it suspends is. */
  lemma SuspendKeepsIff(w: World, node: Storages, next: Frame)
    requires Valid(w) && Current(w) && FrameOk(next) && next.cache == map[] && Follows(w, node)
    ensures Valid(Suspended(w, node, next))
    ensures Current(Suspended(w, node, next)) <==>
              forall s :: s in w.running.cache ==> w.running.cache[s] == Lookup(node, s)
  {
    var w' := Suspended(w, node, next);
    SuspendedStack(w, node, next);
    var top := |w.ids|;
    forall i: nat, s: Slot | i < top && s in At(w', i).cache
      ensures SlotCurrent(w', i, s)
    {
      assert SlotCurrent(w, i, s);
      if Covered(w, i, s) {
        KeepCover(w, w', i, s);
      }
    }
    assert forall s :: s in w.running.cache ==> !Covered(w', top, s);
    assert forall s :: s in At(w', top).cache <==> s in w.running.cache;
    if Current(w') {
      forall s | s in w.running.cache
        ensures w.running.cache[s] == Lookup(node, s)
      {
        assert SlotCurrent(w', top, s);
      }
    }
  }

  lemma AboveCovers(w: World, node: Storages, i: nat, s: Slot)
    requires Valid(w) && w.ids != [] && i < |w.ids| - 1 && Valid(Exited(w, node))
    ensures Covered(Exited(w, node), i, s) <==> Above(w, i, s)
  {
    ExitedStack(w, node);
    var w', top := Exited(w, node), |w.ids| - 1;
    assert s in w'.running.cache <==> s in At(w, top).cache;
    if Above(w, i, s) {
      var j: nat :| i < j < |w.ids| && s in At(w, j).cache;
      assert j < top ==> s in At(w', j).cache;
    }
    if Above(w', i, s) {
      var j: nat :| i < j < |w'.ids| && s in At(w', j).cache;
      assert s in At(w, j).cache;
    }
  }

  /** `node` is the node's storage but for slots the running frame caches. */
  ghost predicate Follows(w: World, node: Storages) {
    forall s: Slot :: s in w.running.cache || Lookup(node, s) == Lookup(w.node, s)
  }

  lemma ExitedSlot(w: World, node: Storages, i: nat, s: Slot)
    requires Valid(w) && w.ids != [] && i < |w.ids| && s in At(w, i).cache && Valid(Exited(w, node))
    ensures var w' := Exited(w, node);
      var now := if s in w.running.cache then w.running.cache[s] else At(w, i).cache[s];
      if i < |w.ids| - 1
        then s in At(w', i).cache && At(w', i).cache[s] == now
             && (SlotCurrent(w', i, s) <==> Above(w, i, s) || now == Lookup(node, s))
        else s in w'.running.cache && w'.running.cache[s] == now && !Above(w, i, s)
  {
    ExitedStack(w, node);
    if i < |w.ids| - 1 {
      AboveCovers(w, node, i, s);
    }
  }

  /** An exit leaves the frames that keep waiting current exactly when what it publishes to them is backed. */
  lemma ExitKeepsWaitingIff(w: World, node: Storages)
    requires Valid(w) && Current(w) && w.ids != [] && Follows(w, node)
    ensures Valid(Exited(w, node))
    ensures Current(Exited(w, node)) <==> BackedUpTo(w, node, |w.ids| - 1)
  {
    ExitedStack(w, node);
    var w' := Exited(w, node);
    if BackedUpTo(w, node, |w.ids| - 1) {
      forall i: nat, s: Slot | i < |w'.ids| && s in At(w', i).cache
        ensures SlotCurrent(w', i, s)
      {
        assert s in At(w, i).cache && SlotCurrent(w, i, s);
        ExitedSlot(w, node, i, s);
      }
    }
    if Current(w') {
      forall i: nat, s: Slot | i < |w'.ids| && s in At(w, i).cache && s in w.running.cache
        ensures w.running.cache[s] == Lookup(node, s) || Above(w, i, s)
      {
        ExitedSlot(w, node, i, s);
        assert SlotCurrent(w', i, s);
      }
    }
  }

  /** It leaves the frame that goes on clean exactly when what it publishes to that one is. */
  lemma ExitCleanIff(w: World, node: Storages)
    requires Valid(w) && Current(w) && w.ids != [] && Follows(w, node)
    ensures Clean(Exited(w, node)) <==>
      forall s :: s in At(w, |w.ids| - 1).cache && s in w.running.cache ==> w.running.cache[s] == Lookup(node, s)
  {
    ExitedStack(w, node);
    var w', top := Exited(w, node), |w.ids| - 1;
    forall s | s in At(w, top).cache
      ensures s in w'.running.cache
      ensures w'.running.cache[s] == if s in w.running.cache then w.running.cache[s] else Lookup(node, s)
    {
      assert SlotCurrent(w, top, s);
      ExitedSlot(w, node, top, s);
    }
    assert forall s :: s in w'.running.cache <==> s in At(w, top).cache;
  }

  /** Both together, exactly when all it publishes is backed. */
  lemma ExitKeepsIff(w: World, node: Storages)
    requires Valid(w) && Current(w) && w.ids != [] && Follows(w, node)
    ensures Valid(Exited(w, node))
    ensures Current(Exited(w, node)) && Clean(Exited(w, node)) <==> BackedUpTo(w, node, |w.ids|)
  {
    ExitKeepsWaitingIff(w, node);
    ExitCleanIff(w, node);
    var top := |w.ids| - 1;
    assert forall s: Slot :: !Above(w, top, s);
  }

  /** After every successful exit the frame that goes on reads its cache and the node's storage alike. */
  lemma ReturnKeeps(w: World)
    requires Valid(w) && Current(w) && w.ids != []
    ensures Valid(Step(w, Return)) && Current(Step(w, Return)) && Clean(Step(w, Return))
  {
    forall s: Slot
      ensures Lookup(Applied(w.node, w.running), s) ==
        if s in w.running.cache then w.running.cache[s] else Lookup(w.node, s)
    {
      AppliedIs(w.node, w.running, s);
    }
    ExitKeepsIff(w, Applied(w.node, w.running));
  }

  /** After a failed one, exactly when what the failed frame had cached is backed by the node. */
  lemma FailKeepsIff(w: World)
    requires Valid(w) && Current(w) && w.ids != []
    ensures Valid(Step(w, Fail))
    ensures Current(Step(w, Fail)) && Clean(Step(w, Fail)) <==> BackedUpTo(w, w.node, |w.ids|)
  {
    ExitKeepsIff(w, w.node);
  }

  lemma CallKeeps(w: World, address: nat, isStatic: bool)
    requires Valid(w) && Current(w) && Enabled(w, Call(address, isStatic))
    ensures Valid(Step(w, Call(address, isStatic))) && Current(Step(w, Call(address, isStatic)))
  {
    forall s: Slot
      ensures Lookup(Applied(w.node, w.running), s) ==
        if s in w.running.cache then w.running.cache[s] else Lookup(w.node, s)
    {
      AppliedIs(w.node, w.running, s);
    }
    SuspendKeepsIff(w, Applied(w.node, w.running), Frame(address, isStatic, map[]));
  }

  /** A create suspends a frame without applying its writes: fine exactly when there are none the node lacks. */
  lemma CreateKeepsIff(w: World, address: nat)
    requires Valid(w) && Current(w) && Enabled(w, Create(address))
    ensures Valid(Step(w, Create(address)))
    ensures Current(Step(w, Create(address))) <==> Clean(w)
  {
    SuspendKeepsIff(w, w.node, Frame(address, false, map[]));
  }

  // ---------- one shared storage ----------

  /** The storage all frames ought to share, and what it was when each waiting frame handed over. */
  datatype Ideal = Ideal(shared: Storages, saved: seq<Storages>)

  /** A trap remembers the storage, a successful exit keeps what was written since, a failed one takes it back. */
  function Idealised(d: Ideal, e: Event): Ideal
    requires e.Return? || e.Fail? ==> d.saved != []
  {
    match e
    case Write(s, v) => d.(shared := d.shared[s := v])
    case Call(_, _) => d.(saved := d.saved + [d.shared])
    case Create(_) => d.(saved := d.saved + [d.shared])
    case Return => d.(saved := d.saved[..|d.saved| - 1])
    case Fail => Ideal(d.saved[|d.saved| - 1], d.saved[..|d.saved| - 1])
  }

  /** Every slot the running frame can load, those of its own contract, reads as the shared storage has it. */
  ghost predicate Transparent(w: World, shared: Storages) {
    forall s: Slot :: s.address == w.running.address ==> Read(w, s) == Lookup(shared, s)
  }

  /** The same of all slots. */
  ghost predicate Agrees(w: World, shared: Storages) {
    forall s: Slot :: Read(w, s) == Lookup(shared, s)
  }

  /** That is what frames can observe: the called frame loads right for every contract called next. */
  lemma AgreesIsObservable(w: World, shared: Storages)
    requires Valid(w)
    ensures Agrees(w, shared) <==> forall a: nat :: Transparent(Step(w, Call(a, true)), shared)
  {
    forall a: nat, s: Slot
      ensures Read(Step(w, Call(a, true)), s) == Read(w, s)
    {
      AppliedIs(w.node, w.running, s);
    }
    if forall a: nat :: Transparent(Step(w, Call(a, true)), shared) {
      forall s: Slot
        ensures Read(w, s) == Lookup(shared, s)
      {
        assert Transparent(Step(w, Call(s.address, true)), shared);
      }
    }
  }

  /**
    What a failed exit leaves to be read: the failed frame's value where its caller caches the slot too, else the
    node's.
  */
  function LeftOver(w: World, s: Slot): nat
    requires Valid(w) && w.ids != []
  {
    if s in w.running.cache && s in At(w, |w.ids| - 1).cache then w.running.cache[s] else Lookup(w.node, s)
  }

  /** Nothing of the failed frame, of its calls or of its caller's unapplied writes tells the storage from `back`. */
  ghost predicate TakenBack(w: World, back: Storages)
    requires Valid(w) && w.ids != []
  {
    forall s: Slot :: LeftOver(w, s) == Lookup(back, s)
  }

  lemma FailReads(w: World, s: Slot)
    requires Valid(w) && Current(w) && w.ids != []
    ensures Read(Step(w, Fail), s) == LeftOver(w, s)
  {
    ExitedStack(w, w.node);
    var top := |w.ids| - 1;
    if s in At(w, top).cache {
      assert SlotCurrent(w, top, s);
      ExitedSlot(w, w.node, top, s);
    }
  }

  /**
    After a failed exit every read gives the storage of before the call exactly when that was taken back, slot by
    slot.
  */
  lemma FailRestoresIff(w: World, back: Storages)
    requires Valid(w) && Current(w) && w.ids != []
    ensures Agrees(Step(w, Fail), back) <==> TakenBack(w, back)
  {
    var w' := Step(w, Fail);
    forall s: Slot
      ensures Read(w', s) == LeftOver(w, s)
    {
      FailReads(w, s);
    }
    if Agrees(w', back) {
      forall s: Slot
        ensures LeftOver(w, s) == Lookup(back, s)
      {
        assert Read(w', s) == Lookup(back, s);
      }
    }
  }

  /** It is restored in the caches and in the node alike exactly when all was backed and the node had it already. */
  lemma FailRestoresCleanIff(w: World, back: Storages)
    requires Valid(w) && Current(w) && w.ids != []
    ensures var w' := Step(w, Fail);
      Current(w') && Clean(w') && Agrees(w', back) <==>
        BackedUpTo(w, w.node, |w.ids|) && forall s: Slot :: Lookup(w.node, s) == Lookup(back, s)
  {
    FailKeepsIff(w);
    var w' := Step(w, Fail);
    if Clean(w') {
      assert forall s: Slot :: Read(w', s) == Lookup(w.node, s);
      if Agrees(w', back) {
        forall s: Slot
          ensures Lookup(w.node, s) == Lookup(back, s)
        {
          assert Read(w', s) == Lookup(back, s);
        }
      }
    }
  }

  /**
    A create followed by a call back to the creator reads the creator's slots as the creator did exactly when it was
    clean.
  */
  lemma CreateReadsIff(w: World, address: nat)
    requires Valid(w) && Enabled(w, Create(address))
    ensures Valid(Step(w, Create(address)))
    ensures var w' := Step(Step(w, Create(address)), Call(w.running.address, false));
      (forall s: Slot :: s.address == w'.running.address ==> Read(w', s) == Read(w, s)) <==> Clean(w)
  {
    StepValid(w, Create(address));
    var w' := Step(Step(w, Create(address)), Call(w.running.address, false));
    forall s: Slot
      ensures Read(w', s) == Lookup(w.node, s)
    {
      AppliedIs(w.node, Frame(address, false, map[]), s);
    }
    if forall s: Slot :: s.address == w'.running.address ==> Read(w', s) == Read(w, s) {
      forall s | s in w.running.cache
        ensures w.running.cache[s] == Lookup(w.node, s)
      {
        assert Read(w', s) == Read(w, s);
      }
    }
  }

  // ---------- runs ----------

  /** A world that waiting frames and the running one see as the ideal storage has it. */
  ghost predicate Coherent(w: World, d: Ideal) {
    Valid(w) && Current(w) && Agrees(w, d.shared) && |d.saved| == |w.ids|
  }

  /**
    What to ask before a create and before a failed exit, of the world, the shared storage and its copy at the call.
  */
  ghost predicate Gentle(w: World, d: Ideal, e: Event)
    requires Valid(w) && Enabled(w, e) && |d.saved| == |w.ids|
  {
    && (e.Create? ==> Clean(w))
    && (e.Fail? ==> BackedUpTo(w, w.node, |w.ids| - 1) && Untouched(w, d.shared, d.saved[|d.saved| - 1]))
  }

  /** The shared storage, but the node's where only the failing frame and not its caller caches the slot. */
  function Kept(w: World, shared: Storages, s: Slot): nat
    requires Valid(w) && w.ids != []
  {
    if s in w.running.cache && s !in At(w, |w.ids| - 1).cache then Lookup(w.node, s) else Lookup(shared, s)
  }

  /** That is still what the storage was at the call. */
  ghost predicate Untouched(w: World, shared: Storages, back: Storages)
    requires Valid(w) && w.ids != []
  {
    forall s: Slot :: Kept(w, shared, s) == Lookup(back, s)
  }

  lemma UntouchedIff(w: World, shared: Storages, back: Storages)
    requires Valid(w) && w.ids != [] && Agrees(w, shared)
    ensures TakenBack(w, back) <==> Untouched(w, shared, back)
  {
    forall s: Slot
      ensures LeftOver(w, s) == Kept(w, shared, s)
    {
      assert Read(w, s) == Lookup(shared, s);
    }
    if TakenBack(w, back) {
      forall s: Slot
        ensures Kept(w, shared, s) == Lookup(back, s)
      {
        assert LeftOver(w, s) == Lookup(back, s);
      }
    }
  }

  lemma SuspendAgrees(w: World, shared: Storages, node: Storages, next: Frame)
    requires Agrees(w, shared) && next.cache == map[] && Follows(w, node)
    ensures Agrees(Suspended(w, node, next), shared) <==>
              forall s :: s in w.running.cache ==> w.running.cache[s] == Lookup(node, s)
  {
    var w' := Suspended(w, node, next);
    assert forall s: Slot :: Read(w', s) == Lookup(node, s);
    if Agrees(w', shared) {
      forall s | s in w.running.cache
        ensures w.running.cache[s] == Lookup(node, s)
      {
        assert Read(w', s) == Lookup(shared, s) && Read(w, s) == Lookup(shared, s);
      }
    }
    if forall s :: s in w.running.cache ==> w.running.cache[s] == Lookup(node, s) {
      forall s: Slot
        ensures Read(w', s) == Lookup(shared, s)
      {
        assert Read(w, s) == Lookup(shared, s);
      }
    }
  }

  lemma AppliedFollows(w: World)
    requires Valid(w)
    ensures Follows(w, Applied(w.node, w.running))
    ensures forall s: Slot :: Lookup(Applied(w.node, w.running), s) == Read(w, s)
  {
    forall s: Slot
      ensures Lookup(Applied(w.node, w.running), s) == Read(w, s)
    {
      AppliedIs(w.node, w.running, s);
    }
  }

  lemma WriteAgrees(w: World, shared: Storages, s: Slot, v: nat)
    requires Valid(w) && Enabled(w, Write(s, v)) && Agrees(w, shared)
    ensures Agrees(Step(w, Write(s, v)), shared[s := v])
  {
    forall x: Slot
      ensures Read(Step(w, Write(s, v)), x) == Lookup(shared[s := v], x)
    {
      assert Read(w, x) == Lookup(shared, x);
    }
  }

  lemma ReturnAgrees(w: World, shared: Storages)
    requires Valid(w) && Current(w) && w.ids != [] && Agrees(w, shared)
    ensures Agrees(Step(w, Return), shared)
  {
    ReturnKeeps(w);
    AppliedFollows(w);
    var w' := Step(w, Return);
    forall s: Slot
      ensures Read(w', s) == Lookup(shared, s)
    {
      assert Read(w', s) == Lookup(w'.node, s) == Read(w, s);
    }
  }

  /** One step from a coherent world leads to a coherent world exactly when it is gentle. */
  lemma StepCoherentIff(w: World, d: Ideal, e: Event)
    requires Coherent(w, d) && Enabled(w, e)
    ensures Coherent(Step(w, e), Idealised(d, e)) <==> Gentle(w, d, e)
  {
    StepValid(w, e);
    match e
    case Write(s, v) =>
      WriteKeeps(w, s, v);
      WriteAgrees(w, d.shared, s, v);
    case Call(a, isStatic) =>
      CallKeeps(w, a, isStatic);
      AppliedFollows(w);
      SuspendAgrees(w, d.shared, Applied(w.node, w.running), Frame(a, isStatic, map[]));
    case Create(a) =>
      CreateKeepsIff(w, a);
      SuspendAgrees(w, d.shared, w.node, Frame(a, false, map[]));
    case Return =>
      ReturnKeeps(w);
      ReturnAgrees(w, d.shared);
    case Fail =>
      ExitKeepsWaitingIff(w, w.node);
      FailRestoresIff(w, d.saved[|d.saved| - 1]);
      UntouchedIff(w, d.shared, d.saved[|d.saved| - 1]);
  }

  /** Where a list of events leads, with the ideal storage beside it, if each of them can happen. */
  function Played(start: World, events: seq<Event>): Option<(World, Ideal)> {
    if events == [] then Some((start, Ideal(start.node, [])))
    else After(Played(start, events[..|events| - 1]), events[|events| - 1])
  }

  function After(at: Option<(World, Ideal)>, e: Event): Option<(World, Ideal)> {
    if at.Some? && Valid(at.value.0) && Enabled(at.value.0, e) && |at.value.1.saved| == |at.value.0.ids|
    then Some((Step(at.value.0, e), Idealised(at.value.1, e)))
    else None
  }

  /** Every world on the way is coherent. */
  ghost predicate CoherentAll(start: World, events: seq<Event>)
    requires Played(start, events).Some?
  {
    var (w, d) := Played(start, events).value;
    Coherent(w, d) && (events != [] ==> CoherentAll(start, events[..|events| - 1]))
  }

  /** Every event on the way is gentle. */
  ghost predicate GentleAll(start: World, events: seq<Event>)
    requires Played(start, events).Some?
  {
    events != [] ==>
      var (w, d) := Played(start, events[..|events| - 1]).value;
      GentleAll(start, events[..|events| - 1]) && Gentle(w, d, events[|events| - 1])
  }

  /** A first frame that has written nothing yet. */
  predicate Starting(w: World) {
    Valid(w) && w.ids == [] && w.running.cache == map[]
  }

  /**
    Over every run of nested calls, creates, returns and failures: all its worlds are coherent with one shared storage
    that failures roll back, if and only if all its creates and failed exits are gentle.
  */
  lemma {:induction false} CoherentIffGentle(start: World, events: seq<Event>)
    requires Starting(start) && Played(start, events).Some?
    ensures CoherentAll(start, events) <==> GentleAll(start, events)
    decreases |events|
  {
    if events != [] {
      var init, e := events[..|events| - 1], events[|events| - 1];
      CoherentIffGentle(start, init);
      if CoherentAll(start, init) {
        var (w, d) := Played(start, init).value;
        StepCoherentIff(w, d, e);
      }
    }
  }

  /** So in such runs each SLOAD of each frame gives what that storage would. */
  lemma CacheIsTransparent(start: World, events: seq<Event>)
    requires Starting(start) && Played(start, events).Some? && GentleAll(start, events)
    ensures var (w, d) := Played(start, events).value;
      Transparent(w, d.shared)
  {
    CoherentIffGentle(start, events);
  }

  // ---------- where it fails ----------

  /** One frame of contract 1 over empty storage. */
  function Alone(): World {
    World(map[], Frame(1, false, map[]), Table(map[], 0), [])
  }

  lemma PlayedOne(events: seq<Event>, w: World, d: Ideal, e: Event)
    requires Played(Alone(), events) == Some((w, d)) && Coherent(w, d) && Enabled(w, e) && !e.Create? && !e.Fail?
    ensures Played(Alone(), events + [e]) == Some((Step(w, e), Idealised(d, e)))
    ensures Coherent(Step(w, e), Idealised(d, e))
  {
    assert (events + [e])[..|events|] == events;
    StepCoherentIff(w, d, e);
  }

  /**
    A contract writes a slot and creates another contract, which calls it back: the slot reads as before the write. The
    create is the only step that is not gentle.
  */
  lemma CreateExample() returns (w: World, d: Ideal, w': World, d': Ideal)
    ensures Played(Alone(), [Write(Slot(1, 0), 7)]) == Some((w, d))
    ensures Coherent(w, d) && Enabled(w, Create(2)) && !Gentle(w, d, Create(2))
    ensures Some((w', d')) == After(After(Some((w, d)), Create(2)), Call(1, false))
    ensures w'.running.address == 1 && Read(w', Slot(1, 0)) == 0 && Lookup(d'.shared, Slot(1, 0)) == 7
  {
    var s := Slot(1, 0);
    w, d := Wrote(s, 7);
    assert s in w.running.cache && !Clean(w);
    StepValid(w, Create(2));
    w', d' := Step(Step(w, Create(2)), Call(1, false)), Idealised(Idealised(d, Create(2)), Call(1, false));
  }

  /** A contract re-enters itself, overwrites a slot and fails: the outer frame goes on with the failed value. */
  lemma FailExample() returns (w: World, d: Ideal)
    ensures Played(Alone(), [Write(Slot(1, 0), 5), Call(1, false), Write(Slot(1, 0), 7)]) == Some((w, d))
    ensures Coherent(w, d) && Enabled(w, Fail) && !Gentle(w, d, Fail)
    ensures Step(w, Fail).running.address == 1
    ensures Read(Step(w, Fail), Slot(1, 0)) == 7 && Lookup(Idealised(d, Fail).shared, Slot(1, 0)) == 5
  {
    var s := Slot(1, 0);
    var v, c := WrittenAndCalled(s, 5, 1);
    PlayedOne([Write(s, 5), Call(1, false)], v, c, Write(s, 7));
    assert [Write(s, 5), Call(1, false)] + [Write(s, 7)] == [Write(s, 5), Call(1, false), Write(s, 7)];
    w, d := Step(v, Write(s, 7)), Idealised(c, Write(s, 7));
    assert At(w, 0) == At(v, 0);
    FailedValueStays(w, d, s);
  }

  lemma FailedValueStays(w: World, d: Ideal, s: Slot)
    requires Coherent(w, d) && |w.ids| == 1 && s in At(w, 0).cache
    requires s in w.running.cache && w.running.cache[s] != Lookup(d.saved[0], s)
    ensures Enabled(w, Fail) && !Gentle(w, d, Fail)
    ensures Step(w, Fail).running.address == At(w, 0).address && Read(Step(w, Fail), s) == w.running.cache[s]
  {
    assert LeftOver(w, s) == w.running.cache[s];
    FailReads(w, s);
    ExitedStack(w, w.node);
  }

  lemma WrittenAndCalled(s: Slot, x: nat, a: nat) returns (w: World, d: Ideal)
    requires s.address == 1
    ensures Played(Alone(), [Write(s, x), Call(a, false)]) == Some((w, d)) && Coherent(w, d)
    ensures |w.ids| == 1 && w.running == Frame(a, false, map[]) && At(w, 0) == Frame(1, false, map[s := x])
    ensures Lookup(d.saved[0], s) == x
  {
    var v, c := Wrote(s, x);
    PlayedOne([Write(s, x)], v, c, Call(a, false));
    assert [Write(s, x)] + [Call(a, false)] == [Write(s, x), Call(a, false)];
    SuspendedStack(v, Applied(v.node, v.running), Frame(a, false, map[]));
    w, d := Step(v, Call(a, false)), Idealised(c, Call(a, false));
  }

  lemma Wrote(s: Slot, x: nat) returns (w: World, d: Ideal)
    requires s.address == 1
    ensures Played(Alone(), [Write(s, x)]) == Some((w, d)) && Coherent(w, d)
    ensures w.ids == [] && w.running == Frame(1, false, map[s := x]) && w.node == map[] && Lookup(d.shared, s) == x
  {
    PlayedOne([], Alone(), Ideal(map[], []), Write(s, x));
    assert [] + [Write(s, x)] == [Write(s, x)];
    assert map[][s := x] == map[s := x];
    w, d := Step(Alone(), Write(s, x)), Idealised(Ideal(map[], []), Write(s, x));
  }

  /**
    A contract writes a slot, calls out, gets control back and fails: the call had applied the write, and nothing undoes
    it. The failed exit is backed; only the storage is not taken back, and the next call reads the write.
  */
  lemma UndoneExample() returns (w: World, d: Ideal, w': World, d': Ideal)
    ensures Played(Alone(), [Call(2, false), Write(Slot(2, 0), 7), Call(3, false), Return]) == Some((w, d))
    ensures Coherent(w, d) && Enabled(w, Fail) && BackedUpTo(w, w.node, |w.ids|) && !Gentle(w, d, Fail)
    ensures Some((w', d')) == After(After(Some((w, d)), Fail), Call(2, false))
    ensures w'.running.address == 2 && Read(w', Slot(2, 0)) == 7 && Lookup(d'.shared, Slot(2, 0)) == 0
  {
    var s := Slot(2, 0);
    var v, c := CalledOut(s, 7, 3);
    var es := [Call(2, false), Write(s, 7), Call(3, false)];
    PlayedOne(es, v, c, Return);
    assert es + [Return] == [Call(2, false), Write(s, 7), Call(3, false), Return];
    w, d := Step(v, Return), Idealised(c, Return);
    ExitedStack(v, Applied(v.node, v.running));
    AppliedIs(v.node, v.running, s);
    w', d' := FailedWriteStays(w, d, s, 2);
  }

  lemma CalledOut(s: Slot, x: nat, a: nat) returns (w: World, d: Ideal)
    requires s.address == 2
    ensures Played(Alone(), [Call(2, false), Write(s, x), Call(a, false)]) == Some((w, d)) && Coherent(w, d)
    ensures |w.ids| == 2 && w.running == Frame(a, false, map[])
    ensures At(w, 0) == Frame(1, false, map[]) && At(w, 1) == Frame(2, false, map[s := x])
    ensures Lookup(w.node, s) == x && d.saved[0] == map[]
  {
    var v, c := CalledAndWrote(s, x);
    PlayedOne([Call(2, false), Write(s, x)], v, c, Call(a, false));
    assert [Call(2, false), Write(s, x)] + [Call(a, false)] == [Call(2, false), Write(s, x), Call(a, false)];
    AppliedIs(v.node, v.running, s);
    SuspendedStack(v, Applied(v.node, v.running), Frame(a, false, map[]));
    w, d := Step(v, Call(a, false)), Idealised(c, Call(a, false));
  }

  lemma CalledAndWrote(s: Slot, x: nat) returns (w: World, d: Ideal)
    requires s.address == 2
    ensures Played(Alone(), [Call(2, false), Write(s, x)]) == Some((w, d)) && Coherent(w, d)
    ensures |w.ids| == 1 && w.running == Frame(2, false, map[s := x]) && At(w, 0) == Frame(1, false, map[])
    ensures d.saved == [map[]]
  {
    PlayedOne([], Alone(), Ideal(map[], []), Call(2, false));
    assert [] + [Call(2, false)] == [Call(2, false)];
    w, d := Step(Alone(), Call(2, false)), Idealised(Ideal(map[], []), Call(2, false));
    PlayedOne([Call(2, false)], w, d, Write(s, x));
    assert [Call(2, false)] + [Write(s, x)] == [Call(2, false), Write(s, x)];
    assert map[][s := x] == map[s := x];
    w, d := Step(w, Write(s, x)), Idealised(d, Write(s, x));
  }

  lemma FailedWriteStays(w: World, d: Ideal, s: Slot, a: nat) returns (w': World, d': Ideal)
    requires Coherent(w, d) && |w.ids| == 1 && At(w, 0) == Frame(At(w, 0).address, false, map[])
    requires s in w.running.cache && Lookup(w.node, s) != Lookup(d.saved[0], s)
    ensures Enabled(w, Fail) && BackedUpTo(w, w.node, |w.ids|) && !Gentle(w, d, Fail)
    ensures Some((w', d')) == After(After(Some((w, d)), Fail), Call(a, false))
    ensures w'.running.address == a && Read(w', s) == Lookup(w.node, s) && Lookup(d'.shared, s) == Lookup(d.saved[0], s)
  {
    assert LeftOver(w, s) == Lookup(w.node, s);
    FailReads(w, s);
    StepValid(w, Fail);
    var v := Step(w, Fail);
    AppliedIs(v.node, v.running, s);
    w', d' := Step(v, Call(a, false)), Idealised(Idealised(d, Fail), Call(a, false));
  }

  // ---------- static calls ----------

  /** From the frame at depth `depth` up to the running one all are static. */
  ghost predicate StaticFrom(w: World, depth: nat)
    requires Valid(w)
  {
    && depth <= |w.ids| && w.running.isStatic && w.running.cache == map[]
    && forall i: nat :: depth <= i < |w.ids| ==> At(w, i).isStatic && At(w, i).cache == map[]
  }

  /**
    No event inside a static call writes, creates or leaves static mode, and none changes the node or the waiting
    frames.
  */
  lemma StaticStep(w: World, d: Ideal, e: Event, depth: nat)
    requires Valid(w) && Enabled(w, e) && StaticFrom(w, depth) && |d.saved| == |w.ids|
    requires e.Return? || e.Fail? ==> |w.ids| > depth
    requires forall i: nat :: depth <= i < |w.ids| ==> d.saved[i] == d.shared
    ensures !e.Write? && !e.Create?
    ensures var w', d' := Step(w, e), Idealised(d, e);
      && Valid(w') && StaticFrom(w', depth) && w'.node == w.node && d'.shared == d.shared
      && |d'.saved| == |w'.ids| && (forall i: nat :: depth <= i < |w'.ids| ==> d'.saved[i] == d'.shared)
      && forall i: nat :: i < depth ==> At(w', i) == At(w, i) && d'.saved[i] == d.saved[i]
  {
    StepValid(w, e);
    match e
    case Write(_, _) =>
    case Call(a, isStatic) => SuspendedStack(w, Applied(w.node, w.running), Frame(a, isStatic, map[]));
    case Create(_) =>
    case Return => ExitedStack(w, Applied(w.node, w.running));
    case Fail => ExitedStack(w, w.node);
  }

  /** Where events lead from a world in the middle of a run, if each of them can happen. */
  function Onward(w: World, d: Ideal, events: seq<Event>): Option<(World, Ideal)> {
    if events == [] then Some((w, d)) else After(Onward(w, d, events[..|events| - 1]), events[|events| - 1])
  }

  /** None of the events leaves the frame at `depth`. */
  ghost predicate StaysAbove(w: World, d: Ideal, events: seq<Event>, depth: nat)
    requires Onward(w, d, events).Some?
  {
    events != [] ==>
      var init, e := events[..|events| - 1], events[|events| - 1];
      StaysAbove(w, d, init, depth) && (e.Return? || e.Fail? ==> |Onward(w, d, init).value.0.ids| > depth)
  }

  /**
    A static call changes nothing: whatever is called, returns and fails inside it, the node's storage, the shared
    storage and every frame that waits outside are what they were when it began.
  */
  lemma {:induction false} StaticCallKeeps(w: World, d: Ideal, events: seq<Event>)
    requires Valid(w) && w.running.isStatic && |d.saved| == |w.ids|
    requires Onward(w, d, events).Some? && StaysAbove(w, d, events, |w.ids|)
    ensures var (w', d') := Onward(w, d, events).value;
      && Valid(w') && |d'.saved| == |w'.ids| && StaticFrom(w', |w.ids|)
      && w'.node == w.node && d'.shared == d.shared
      && (forall i: nat :: |w.ids| <= i < |w'.ids| ==> d'.saved[i] == d'.shared)
      && forall i: nat :: i < |w.ids| ==> At(w', i) == At(w, i) && d'.saved[i] == d.saved[i]
    decreases |events|
  {
    if events != [] {
      var init, e := events[..|events| - 1], events[|events| - 1];
      StaticCallKeeps(w, d, init);
      var (v, c) := Onward(w, d, init).value;
      StaticStep(v, c, e, |w.ids|);
    }
  }
}
