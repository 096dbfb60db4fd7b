/**
 The object tables: canvases, sprites and placements. The three tables share one shape; they differ
 only in the payload of an entry. Each call is atomic.
 */
module ObjectTable {
  import opened Common

  const INITIAL_CAPACITY: nat := 64

  /** One entry; a null pointer marks an object that has been destroyed. */
  datatype Entry<H, C> = Entry(ptr: Option<H>, id: nat, owner: Option<C>)

  /** The live handles of a table, with their multiplicity. */
  ghost function Live<H(!new), C>(es: seq<Entry<H, C>>): multiset<H> {
    if es == [] then multiset{}
    else Live(es[..|es| - 1]) + (if es[|es| - 1].ptr.Some? then multiset{es[|es| - 1].ptr.value} else multiset{})
  }

  /** Taking the handle out of one entry takes one copy of it out of the live ones. */
  lemma {:induction false} LiveCleared<H(!new), C>(es: seq<Entry<H, C>>, i: nat, e: Entry<H, C>)
    requires i < |es| && es[i].ptr.Some? && e.ptr == None
    ensures Live(es) == Live(es[i := e]) + multiset{es[i].ptr.value}
  {
    var n := |es| - 1;
    if i < n {
      LiveCleared(es[..n], i, e);
      assert es[i := e][..n] == es[..n][i := e];
    } else {
      assert es[i := e][..n] == es[..n];
    }
  }

  lemma {:induction false} LiveUnchanged<H(!new), C>(es: seq<Entry<H, C>>, i: nat, e: Entry<H, C>)
    requires i < |es| && es[i].ptr == e.ptr
    ensures Live(es) == Live(es[i := e])
  {
    var n := |es| - 1;
    if i < n {
      LiveUnchanged(es[..n], i, e);
      assert es[i := e][..n] == es[..n][i := e];
    } else {
      assert es[i := e][..n] == es[..n];
    }
  }

  /** The handle that clearing an entry destroys, if it still has one. */
  function Handle<H, C>(e: Entry<H, C>): multiset<H> {
    if e.ptr.Some? then multiset{e.ptr.value} else multiset{}
  }

  lemma LiveAppend<H(!new), C>(es: seq<Entry<H, C>>, e: Entry<H, C>)
    ensures Live(es + [e]) == Live(es) + Handle(e)
  {
    assert (es + [e])[..|es|] == es;
  }

  /** A live entry of this client. */
  predicate OwnedBy<H(==), C(==)>(e: Entry<H, C>, client: C) {
    e.ptr.Some? && e.owner == Some(client)
  }

  /** The entries after the first n have been swept for a dead client: its live ones are destroyed and disowned. */
  function Swept<H(==), C(==)>(es: seq<Entry<H, C>>, client: C, n: nat): (r: seq<Entry<H, C>>)
    ensures |r| == |es|
    ensures forall i :: 0 <= i < n && i < |es| ==> !OwnedBy(r[i], client)
    ensures forall i :: 0 <= i < |es| && !OwnedBy(es[i], client) ==> r[i] == es[i]
    ensures forall i :: 0 <= i < n && i < |es| && OwnedBy(es[i], client) ==> r[i] == Entry(None, es[i].id, None)
  {
    seq(|es|, i requires 0 <= i < |es| =>
      if i < n && OwnedBy(es[i], client) then es[i].(ptr := None, owner := None) else es[i])
  }

  /**
   Entry i is the i-th object inserted, under id i; it still has that object's handle or none; and every
   handle inserted is either live or destroyed, as many times as it was inserted.
   */
  ghost predicate Sound<H(!new), C>(es: seq<Entry<H, C>>, inserted: seq<H>, destroyed: multiset<H>) {
    && |es| == |inserted|
    && (forall i :: 0 <= i < |es| ==> es[i].id == i && (es[i].ptr == None || es[i].ptr == Some(inserted[i])))
    && multiset(inserted) == Live(es) + destroyed
  }

  lemma SoundInsert<H(!new), C>(es: seq<Entry<H, C>>, inserted: seq<H>, destroyed: multiset<H>, ptr: H, owner: C)
    requires Sound(es, inserted, destroyed)
    ensures Sound(es + [Entry(Some(ptr), |es|, Some(owner))], inserted + [ptr], destroyed)
  {
    LiveAppend(es, Entry(Some(ptr), |es|, Some(owner)));
    assert multiset(inserted + [ptr]) == multiset(inserted) + multiset{ptr};
  }

  lemma SoundRemove<H(!new), C>(es: seq<Entry<H, C>>, inserted: seq<H>, destroyed: multiset<H>, i: nat)
    requires Sound(es, inserted, destroyed) && i < |es|
    ensures Sound(es[i := es[i].(ptr := None)], inserted, destroyed + Handle(es[i]))
  {
    if es[i].ptr.Some? {
      LiveCleared(es, i, es[i].(ptr := None));
    } else {
      LiveUnchanged(es, i, es[i].(ptr := None));
    }
  }

  lemma SoundDisown<H(!new), C>(es: seq<Entry<H, C>>, inserted: seq<H>, destroyed: multiset<H>, i: nat)
    requires Sound(es, inserted, destroyed) && i < |es|
    ensures Sound(es[i := es[i].(owner := None)], inserted, destroyed)
  {
    LiveUnchanged(es, i, es[i].(owner := None));
  }

  /** One call on a table. */
  datatype Op<H, C> = Inserts(ptr: H, owner: C) | Removes(id: int) | OwnerDies(client: C)

  function After<H(==), C(==)>(es: seq<Entry<H, C>>, op: Op<H, C>): seq<Entry<H, C>> {
    match op
    case Inserts(ptr, owner) => es + [Entry(Some(ptr), |es|, Some(owner))]
    case Removes(id) => if 0 <= id < |es| then es[id := es[id].(ptr := None)] else es
    case OwnerDies(client) => Swept(es, client, |es|)
  }

  function AfterAll<H(==), C(==)>(es: seq<Entry<H, C>>, ops: seq<Op<H, C>>): seq<Entry<H, C>>
    decreases |ops|
  {
    if ops == [] then es else AfterAll(After(es, ops[0]), ops[1..])
  }

  /** The entries that name this client as their owner, in order. */
  function Mine<H, C(==)>(es: seq<Entry<H, C>>, client: C): seq<Entry<H, C>> {
    if es == [] then []
    else
      var last := es[|es| - 1];
      Mine(es[..|es| - 1], client) + if last.owner == Some(client) then [last] else []
  }

  lemma Summed<H>(a: multiset<H>, b: multiset<H>, c: multiset<H>, d: multiset<H>)
    ensures (a + b) + (c + d) == (a + c) + (b + d)
  {
  }

  /** What the last entry adds to the live handles, and to a client's own. */
  lemma LastEntry<H(!new), C>(es: seq<Entry<H, C>>, client: C)
    requires es != []
    ensures var last := es[|es| - 1];
            && Live(es) == Live(es[..|es| - 1]) + Handle(last)
            && Live(Mine(es, client)) ==
               Live(Mine(es[..|es| - 1], client)) + if last.owner == Some(client) then Handle(last) else multiset{}
  {
    LiveAppend(Mine(es[..|es| - 1], client), es[|es| - 1]);
    assert Mine(es[..|es| - 1], client) + [] == Mine(es[..|es| - 1], client);
  }

  /** The sweep for a dead client takes the live handles of exactly the entries that name it as their owner. */
  lemma {:induction false} LiveSwept<H(!new), C>(es: seq<Entry<H, C>>, client: C)
    ensures Live(es) == Live(Swept(es, client, |es|)) + Live(Mine(es, client))
  {
    if es != [] {
      var n, swept := |es| - 1, Swept(es, client, |es|);
      LiveSwept(es[..n], client);
      LastEntry(es, client);
      LastEntry(swept, client);
      assert swept[..n] == Swept(es[..n], client, n);
      var taken := if es[n].owner == Some(client) then Handle(es[n]) else multiset{};
      assert Handle(es[n]) == Handle(swept[n]) + taken;
      Summed(Live(swept[..n]), Live(Mine(es[..n], client)), Handle(swept[n]), taken);
    }
  }

  /**
   What a client's death leaves of a table, told by the owners: an entry that names somebody else, or nobody, is as
   it was, and one that names the client has no handle any more, and no owner unless it had lost its handle before.
   */
  ghost predicate OnlyMineGone<H(!new), C>(es: seq<Entry<H, C>>, es': seq<Entry<H, C>>, client: C) {
    && |es'| == |es|
    && (forall i :: 0 <= i < |es| && es[i].owner != Some(client) ==> es'[i] == es[i])
    && (forall i :: 0 <= i < |es| && es[i].owner == Some(client) ==>
          es'[i] == if es[i].ptr == None then es[i] else Entry(None, es[i].id, None))
  }

  lemma OnlyMineGoneBefore<H(!new), C>(es: seq<Entry<H, C>>, es': seq<Entry<H, C>>, client: C)
    requires OnlyMineGone(es, es', client) && es != []
    ensures OnlyMineGone(es[..|es| - 1], es'[..|es| - 1], client)
  {
  }

  /** A client's death leaves every other client's entries as they were. */
  lemma {:induction false} OthersKeepTheirs<H(!new), C>(es: seq<Entry<H, C>>, es': seq<Entry<H, C>>, client: C, other: C)
    requires OnlyMineGone(es, es', client) && other != client
    ensures Mine(es', other) == Mine(es, other)
  {
    if es != [] {
      OnlyMineGoneBefore(es, es', client);
      OthersKeepTheirs(es[..|es| - 1], es'[..|es| - 1], client, other);
    }
  }

  /** A client's death leaves it no live handle. */
  lemma {:induction false} NoneOfMineLives<H(!new), C>(es: seq<Entry<H, C>>, es': seq<Entry<H, C>>, client: C)
    requires OnlyMineGone(es, es', client)
    ensures Live(Mine(es', client)) == multiset{}
  {
    if es != [] {
      OnlyMineGoneBefore(es, es', client);
      NoneOfMineLives(es[..|es| - 1], es'[..|es| - 1], client);
      LastEntry(es', client);
    }
  }

  /** The handles a call destroys, and the one it brings in. */
  ghost function Destroys<H(!new), C>(es: seq<Entry<H, C>>, op: Op<H, C>): multiset<H> {
    match op
    case Inserts(_, _) => multiset{}
    case Removes(id) => if 0 <= id < |es| then Handle(es[id]) else multiset{}
    case OwnerDies(client) => Live(Mine(es, client))
  }

  function Brings<H, C>(op: Op<H, C>): seq<H> {
    if op.Inserts? then [op.ptr] else []
  }

  ghost function DestroyedBy<H(!new), C>(es: seq<Entry<H, C>>, ops: seq<Op<H, C>>): multiset<H>
    decreases |ops|
  {
    if ops == [] then multiset{} else Destroys(es, ops[0]) + DestroyedBy(After(es, ops[0]), ops[1..])
  }

  function BroughtBy<H, C>(ops: seq<Op<H, C>>): seq<H> {
    if ops == [] then [] else Brings(ops[0]) + BroughtBy(ops[1..])
  }

  lemma SoundAfter<H(!new), C>(es: seq<Entry<H, C>>, inserted: seq<H>, destroyed: multiset<H>, op: Op<H, C>)
    requires Sound(es, inserted, destroyed)
    ensures Sound(After(es, op), inserted + Brings(op), destroyed + Destroys(es, op))
  {
    match op
    case Inserts(ptr, owner) => SoundInsert(es, inserted, destroyed, ptr, owner);
    case Removes(id) =>
      assert inserted + [] == inserted;
      if 0 <= id < |es| {
        SoundRemove(es, inserted, destroyed, id);
      }
    case OwnerDies(client) =>
      assert inserted + [] == inserted;
      SoundSwept(es, inserted, destroyed, client);
  }

  lemma SoundSwept<H(!new), C>(es: seq<Entry<H, C>>, inserted: seq<H>, destroyed: multiset<H>, client: C)
    requires Sound(es, inserted, destroyed)
    ensures Sound(Swept(es, client, |es|), inserted, destroyed + Live(Mine(es, client)))
  {
    var swept := Swept(es, client, |es|);
    forall i | 0 <= i < |swept| ensures swept[i].id == i && (swept[i].ptr == None || swept[i].ptr == Some(inserted[i])) {
      assert swept[i] == if OwnedBy(es[i], client) then Entry(None, es[i].id, None) else es[i];
    }
    LiveSwept(es, client);
    Moved(Live(swept), Live(Mine(es, client)), destroyed);
  }

  lemma Moved<H>(a: multiset<H>, b: multiset<H>, c: multiset<H>)
    ensures a + b + c == a + (c + b)
  {
  }

  lemma {:induction false} SoundAfterAll<H(!new), C>(es: seq<Entry<H, C>>, inserted: seq<H>, destroyed: multiset<H>, ops: seq<Op<H, C>>)
    requires Sound(es, inserted, destroyed)
    ensures Sound(AfterAll(es, ops), inserted + BroughtBy(ops), destroyed + DestroyedBy(es, ops))
    decreases |ops|
  {
    if ops == [] {
      assert inserted + BroughtBy(ops) == inserted && destroyed + DestroyedBy(es, ops) == destroyed;
    } else {
      var brought, gone, rest := Brings(ops[0]), Destroys(es, ops[0]), ops[1..];
      SoundAfter(es, inserted, destroyed, ops[0]);
      SoundAfterAll(After(es, ops[0]), inserted + brought, destroyed + gone, rest);
      Regrouped(inserted, brought, BroughtBy(rest), destroyed, gone, DestroyedBy(After(es, ops[0]), rest));
    }
  }

  lemma Regrouped<H>(a: seq<H>, b: seq<H>, c: seq<H>, d: multiset<H>, e: multiset<H>, f: multiset<H>)
    ensures a + b + c == a + (b + c) && d + e + f == d + (e + f)
  {
  }

  /**
   Over any run from the empty table, a handle is destroyed or still live exactly as often as it was inserted,
   counting the removals asked for and those of a dead client's objects: never twice, and never while live.
   */
  lemma DestroyedAtMostOnce<H(!new), C>(ops: seq<Op<H, C>>, h: H)
    ensures DestroyedBy([], ops)[h] + Live(AfterAll([], ops))[h] == multiset(BroughtBy(ops))[h]
  {
    SoundAfterAll([], [], multiset{}, ops);
    assert [] + BroughtBy(ops) == BroughtBy(ops);
    assert multiset(BroughtBy(ops))[h] == (Live(AfterAll([], ops)) + DestroyedBy([], ops))[h];
  }

  /**
   Over any run of inserts, removals and client deaths, however often the table grows, an id keeps denoting
   the object it was given out for: its entry has that object's handle or none, and once it has none it never
   gets one back.
   */
  lemma {:induction false} IdsAreStable<H, C>(es: seq<Entry<H, C>>, ops: seq<Op<H, C>>, i: nat)
    requires i < |es| && es[i].id == i
    ensures i < |AfterAll(es, ops)| && AfterAll(es, ops)[i].id == i
    ensures AfterAll(es, ops)[i].ptr == es[i].ptr || AfterAll(es, ops)[i].ptr == None
    decreases |ops|
  {
    if ops != [] {
      var next := After(es, ops[0]);
      assert next[i].id == i && (next[i].ptr == es[i].ptr || next[i].ptr == None);
      IdsAreStable(next, ops[1..], i);
    }
  }

  /** One table. An array of length 0 stands for the null pointer. */
  class Table<H(!new, ==), C(==)> {
    var arr: array<Entry<H, C>>
    var count: nat
    var capacity: nat
    ghost var inserted: seq<H>          // every handle ever inserted, in order
    ghost var destroyed: multiset<H>    // every handle passed to a destroy call

    ghost function Entries(): seq<Entry<H, C>>
      reads this, arr
      requires count <= arr.Length
    {
      arr[..count]
    }

    ghost predicate Valid()
      reads this, arr
    {
      capacity == arr.Length && count <= capacity && Sound(Entries(), inserted, destroyed)
    }

    /** tables_init for one table. */
    constructor ()
      ensures Valid() && fresh(arr) && count == 0 && inserted == [] && destroyed == multiset{}
    {
      arr, count, capacity := new Entry<H, C>[0], 0, 0;
      inserted, destroyed := [], multiset{};
    }

    /**
     grow_array and the assignment of its result: capacity 64 at first, then doubled, with every entry kept. When
     there is no memory the array pointer is overwritten with null all the same, and the capacity is kept.
     */
    method Grow(room: bool, filler: Entry<H, C>)
      requires Valid()
      modifies this`arr, this`capacity
      ensures fresh(arr)
      ensures room ==> capacity == (if old(capacity) == 0 then 64 else 2 * old(capacity))
      ensures room ==> Valid() && Entries() == old(Entries())
      ensures !room ==> arr.Length == 0 && capacity == old(capacity)
    {
      if !room {
        arr := new Entry<H, C>[0];
        return;
      }
      var newcap := if capacity == 0 then INITIAL_CAPACITY else capacity * 2;
      var newarr := new Entry<H, C>[newcap](_ => filler);
      forall i | 0 <= i < count {
        newarr[i] := arr[i];
      }
      ghost var before := Entries();
      arr, capacity := newarr, newcap;
      assert Entries() == before;
    }

    /** An insert that has to grow the table and finds no memory. */
    ghost predicate Exhausted(room: bool)
      reads this
    {
      count == capacity && !room
    }

    /**
     canvas_insert, sprite_insert and placement_insert. A failed insert is told by a negative id; the table can
     be used after it exactly when it was empty, since the entries of any other can no longer be reached.
     */
    method Insert(ptr: H, owner: C, room: bool) returns (id: int)
      requires Valid()
      modifies this, arr
      ensures arr == old(arr) || fresh(arr)
      ensures old(Exhausted(room)) ==> id == -1 && count == old(count) && inserted == old(inserted) && destroyed == old(destroyed)
      ensures old(Exhausted(room)) ==> (Valid() <==> old(count) == 0)
      ensures !old(Exhausted(room)) ==> Valid() && id == old(count) && count == old(count) + 1
      ensures !old(Exhausted(room)) ==> Entries() == After(old(Entries()), Inserts(ptr, owner))
      ensures !old(Exhausted(room)) ==> Entries() == old(Entries()) + [Entry(Some(ptr), id, Some(owner))]
      ensures !old(Exhausted(room)) ==> inserted == old(inserted) + [ptr] && destroyed == old(destroyed)
    {
      var e := Entry(Some(ptr), count, Some(owner));
      if count == capacity {
        Grow(room, e);
        if arr.Length == 0 {
          return -1;
        }
      }
      id := count;
      Append(ptr, owner);
    }

    /** The write of a new last entry, when there is room for one. */
    method Append(ptr: H, owner: C)
      requires Valid() && count < capacity
      modifies this`count, this`inserted, arr
      ensures Valid() && count == old(count) + 1 && inserted == old(inserted) + [ptr]
      ensures Entries() == After(old(Entries()), Inserts(ptr, owner))
    {
      ghost var before := Entries();
      SoundInsert(before, inserted, destroyed, ptr, owner);
      arr[count] := Entry(Some(ptr), count, Some(owner));
      count := count + 1;
      inserted := inserted + [ptr];
      assert Entries() == before + [arr[count - 1]];
    }

    /** canvas_lookup and its siblings: any id outside the table is refused. */
    method Lookup(id: int) returns (e: Option<Entry<H, C>>)
      requires Valid()
      ensures e == if 0 <= id < count then Some(Entries()[id]) else None
      ensures e.Some? && e.value.ptr.Some? ==> e.value.ptr.value == inserted[id]
    {
      if id < 0 || id >= count {
        return None;
      }
      assert arr[id] == Entries()[id];
      e := Some(arr[id]);
    }

    /** canvas_remove and its siblings; the handle of an entry that has none is not destroyed again. */
    method Remove(id: int)
      requires Valid()
      modifies this`destroyed, arr
      ensures Valid()
      ensures Entries() == After(old(Entries()), Removes(id))
      ensures destroyed == old(destroyed) + Destroys(old(Entries()), Removes(id))
      ensures forall j :: 0 <= j < count && j != id ==> Entries()[j] == old(Entries())[j]
      ensures 0 <= id < count ==> Entries()[id].ptr == None && Entries()[id].owner == old(Entries())[id].owner
      ensures destroyed == old(destroyed) +
                           if 0 <= id < count && old(Entries())[id].ptr.Some? then multiset{old(Entries())[id].ptr.value} else multiset{}
    {
      if id < 0 || id >= count {
        return;
      }
      ghost var before := Entries();
      SoundRemove(before, inserted, destroyed, id);
      destroyed := destroyed + Handle(before[id]);
      arr[id] := arr[id].(ptr := None);
      assert Entries() == before[id := before[id].(ptr := None)];
    }

    method Disown(i: nat)
      requires Valid() && i < count
      modifies arr
      ensures Valid() && Entries() == old(Entries())[i := old(Entries())[i].(owner := None)]
    {
      ghost var before := Entries();
      SoundDisown(before, inserted, destroyed, i);
      arr[i] := arr[i].(owner := None);
      assert Entries() == before[i := before[i].(owner := None)];
    }

    /** One turn of the sweep for a dead client: a live entry of its own is removed and disowned. */
    method SweepEntry(i: nat, client: C)
      requires Valid() && i < count
      modifies this`destroyed, arr
      ensures Valid()
      ensures var es := old(Entries());
              Entries() == if OwnedBy(es[i], client) then es[i := es[i].(ptr := None, owner := None)] else es
    {
      assert arr[i] == Entries()[i];
      if arr[i].ptr.Some? && arr[i].owner == Some(client) {
        Remove(i);
        Disown(i);
      }
    }

    /** The loop of client_markdead over one table. */
    method Sweep(client: C)
      requires Valid()
      modifies this`destroyed, arr
      ensures Valid() && Entries() == Swept(old(Entries()), client, count)
    {
      var i := 0;
      ghost var es := Entries();
      while i < count
        invariant i <= count && Valid() && Entries() == Swept(es, client, i)
      {
        SweptNext(es, client, i);
        SweepEntry(i, client);
        i := i + 1;
      }
    }

    /** The table's part of client_markdead: the objects destroyed are the client's live ones, and no other entry is touched. */
    method RemoveOwned(client: C)
      requires Valid()
      modifies this`destroyed, arr
      ensures Valid() && Entries() == After(old(Entries()), OwnerDies(client))
      ensures OnlyMineGone(old(Entries()), Entries(), client)
      ensures destroyed == old(destroyed) + Live(Mine(old(Entries()), client))
    {
      Sweep(client);
      SweptDestroys(old(Entries()), client, inserted, old(destroyed), destroyed);
    }
  }

  /** What a completed sweep destroyed is told by the ledger before and after it. */
  lemma SweptDestroys<H(!new), C>(es: seq<Entry<H, C>>, client: C, inserted: seq<H>, before: multiset<H>, after: multiset<H>)
    requires Sound(es, inserted, before) && Sound(Swept(es, client, |es|), inserted, after)
    ensures after == before + Live(Mine(es, client))
    ensures OnlyMineGone(es, Swept(es, client, |es|), client)
  {
    LiveSwept(es, client);
    var left, owned := Live(Swept(es, client, |es|)), Live(Mine(es, client));
    assert left + after == left + owned + before;
    forall h | h in after + before + owned ensures after[h] == before[h] + owned[h] {
      assert (left + after)[h] == (left + owned + before)[h];
    }
  }

  lemma SweptNext<H, C>(es: seq<Entry<H, C>>, client: C, i: nat)
    requires i < |es|
    ensures Swept(es, client, i)[i] == es[i]
    ensures Swept(es, client, i + 1) ==
            if OwnedBy(es[i], client) then Swept(es, client, i)[i := es[i].(ptr := None, owner := None)] else Swept(es, client, i)
  {
  }

  /** What the three tables hold. */
  datatype Tables<H, C> = Tables(canvases: seq<Entry<H, C>>, sprites: seq<Entry<H, C>>, placements: seq<Entry<H, C>>)

  /** Every handle destroyed so far, by table. */
  datatype Ledger<H> = Ledger(canvases: multiset<H>, sprites: multiset<H>, placements: multiset<H>)

  /** A client has died: of each table only its own entries are gone, and exactly its live handles are destroyed. */
  ghost predicate Bereft<H(!new), C>(t: Tables<H, C>, t': Tables<H, C>, d: Ledger<H>, d': Ledger<H>, client: C) {
    && OnlyMineGone(t.canvases, t'.canvases, client) && d'.canvases == d.canvases + Live(Mine(t.canvases, client))
    && OnlyMineGone(t.sprites, t'.sprites, client) && d'.sprites == d.sprites + Live(Mine(t.sprites, client))
    && OnlyMineGone(t.placements, t'.placements, client) && d'.placements == d.placements + Live(Mine(t.placements, client))
  }

  /** The three tables. */
  class Objects<H(!new, ==), C(==)> {
    const canvases: Table<H, C>
    const sprites: Table<H, C>
    const placements: Table<H, C>

    /** tables_init. */
    constructor ()
      ensures Valid() && fresh(canvases) && fresh(sprites) && fresh(placements)
      ensures fresh(canvases.arr) && fresh(sprites.arr) && fresh(placements.arr)
    {
      canvases := new Table();
      sprites := new Table();
      placements := new Table();
    }

    /** Three tables of their own, each with its own array. */
    ghost predicate Apart()
      reads canvases, sprites, placements
    {
      && canvases != sprites && canvases != placements && sprites != placements
      && canvases.arr != sprites.arr && canvases.arr != placements.arr && sprites.arr != placements.arr
    }

    ghost predicate Valid()
      reads canvases, sprites, placements, canvases.arr, sprites.arr, placements.arr
    {
      Apart() && canvases.Valid() && sprites.Valid() && placements.Valid()
    }

    /** Each table still has its array, or a new one. */
    twostate predicate Regrown()
      reads canvases, sprites, placements
    {
      && (canvases.arr == old(canvases.arr) || fresh(canvases.arr))
      && (sprites.arr == old(sprites.arr) || fresh(sprites.arr))
      && (placements.arr == old(placements.arr) || fresh(placements.arr))
    }

    ghost function Contents(): Tables<H, C>
      reads canvases, sprites, placements, canvases.arr, sprites.arr, placements.arr
      requires Valid()
    {
      Tables(canvases.Entries(), sprites.Entries(), placements.Entries())
    }

    ghost function Destroyed(): Ledger<H>
      reads canvases, sprites, placements
    {
      Ledger(canvases.destroyed, sprites.destroyed, placements.destroyed)
    }

    /** canvas_insert, among the three tables. */
    method InsertCanvas(handle: H, owner: C, room: bool) returns (id: int)
      requires Valid()
      modifies canvases, canvases.arr
      ensures id == if old(canvases.Exhausted(room)) then -1 else old(canvases.count)
      ensures Valid() <==> !old(canvases.Exhausted(room)) || old(canvases.count) == 0
      ensures Valid() ==>
                Contents() == if id < 0 then old(Contents())
                              else old(Contents()).(canvases := After(old(canvases.Entries()), Inserts(handle, owner)))
      ensures Regrown()
    {
      id := canvases.Insert(handle, owner, room);
    }

    /** sprite_insert, among the three tables. */
    method InsertSprite(handle: H, owner: C, room: bool) returns (id: int)
      requires Valid()
      modifies sprites, sprites.arr
      ensures id == if old(sprites.Exhausted(room)) then -1 else old(sprites.count)
      ensures Valid() <==> !old(sprites.Exhausted(room)) || old(sprites.count) == 0
      ensures Valid() ==>
                Contents() == if id < 0 then old(Contents())
                              else old(Contents()).(sprites := After(old(sprites.Entries()), Inserts(handle, owner)))
      ensures Regrown()
    {
      id := sprites.Insert(handle, owner, room);
    }

    /** placement_insert, among the three tables. */
    method InsertPlacement(handle: H, owner: C, room: bool) returns (id: int)
      requires Valid()
      modifies placements, placements.arr
      ensures id == if old(placements.Exhausted(room)) then -1 else old(placements.count)
      ensures Valid() <==> !old(placements.Exhausted(room)) || old(placements.count) == 0
      ensures Valid() ==>
                Contents() == if id < 0 then old(Contents())
                              else old(Contents()).(placements := After(old(placements.Entries()), Inserts(handle, owner)))
      ensures Regrown()
    {
      id := placements.Insert(handle, owner, room);
    }

    /** canvas_remove, among the three tables. */
    method RemoveCanvas(id: int)
      requires Valid()
      modifies canvases, canvases.arr
      ensures Valid() && Contents() == old(Contents()).(canvases := After(old(canvases.Entries()), Removes(id)))
      ensures Regrown()
    {
      canvases.Remove(id);
    }

    /** sprite_remove, among the three tables. */
    method RemoveSprite(id: int)
      requires Valid()
      modifies sprites, sprites.arr
      ensures Valid() && Contents() == old(Contents()).(sprites := After(old(sprites.Entries()), Removes(id)))
      ensures Regrown()
    {
      sprites.Remove(id);
    }

    /** placement_remove, among the three tables. */
    method RemovePlacement(id: int)
      requires Valid()
      modifies placements, placements.arr
      ensures Valid() && Contents() == old(Contents()).(placements := After(old(placements.Entries()), Removes(id)))
      ensures Regrown()
    {
      placements.Remove(id);
    }

    /** client_markdead's sweep of the three tables: right after it, none of them has a live entry of the client. */
    method RemoveOwned(client: C)
      requires Valid()
      modifies canvases`destroyed, sprites`destroyed, placements`destroyed, canvases.arr, sprites.arr, placements.arr
      ensures Valid()
      ensures Bereft(old(Contents()), Contents(), old(Destroyed()), Destroyed(), client)
    {
      canvases.RemoveOwned(client);
      sprites.RemoveOwned(client);
      placements.RemoveOwned(client);
    }
  }
}
