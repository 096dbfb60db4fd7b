/** Every step of the server keeps the reference ledger, the poll set and the descriptors in agreement. */
module LifetimeProofs {
  import opened Common
  import opened RegistrySpec
  import opened Lifetime

  // ---------------------------------------------------------------- counting references

  lemma {:induction false} TasksConcat(a: seq<Task>, b: seq<Task>, c: Id)
    ensures TasksHolding(a + b, c) == TasksHolding(a, c) + TasksHolding(b, c)
  {
    if a == [] {
      assert a + b == b;
    } else {
      assert (a + b)[1..] == a[1..] + b;
      TasksConcat(a[1..], b, c);
    }
  }

  lemma {:induction false} ResultsConcat(a: seq<TaskResult>, b: seq<TaskResult>, c: Id)
    ensures ResultsHolding(a + b, c) == ResultsHolding(a, c) + ResultsHolding(b, c)
  {
    if a == [] {
      assert a + b == b;
    } else {
      assert (a + b)[1..] == a[1..] + b;
      ResultsConcat(a[1..], b, c);
    }
  }

  lemma TasksAppend(ts: seq<Task>, t: Task, c: Id)
    ensures TasksHolding(ts + [t], c) == TasksHolding(ts, c) + TaskHolds(t, c)
  {
    TasksConcat(ts, [t], c);
  }

  lemma ResultsAppend(rs: seq<TaskResult>, r: TaskResult, c: Id)
    ensures ResultsHolding(rs + [r], c) == ResultsHolding(rs, c) + ResultHolds(r, c)
  {
    ResultsConcat(rs, [r], c);
  }

  lemma TasksWithout(ts: seq<Task>, i: nat, c: Id)
    requires i < |ts|
    ensures TasksHolding(ts, c) == TasksHolding(WithoutTask(ts, i), c) + TaskHolds(ts[i], c)
  {
    assert ts == ts[..i] + [ts[i]] + ts[i + 1..];
    TasksConcat(ts[..i] + [ts[i]], ts[i + 1..], c);
    TasksAppend(ts[..i], ts[i], c);
    TasksConcat(ts[..i], ts[i + 1..], c);
  }

  // ---------------------------------------------------------------- the registry's own steps

  /** The ledger while the running handler has one reference to c in its hands. */
  ghost predicate LedgerBut(s: State, c: Id) {
    && Holders(s, c) + 1 == Refcount(s, c)
    && forall d: Id :: d != c ==> Holders(s, d) == Refcount(s, d)
  }

  /** Everything but the ledger and the poll set. */
  ghost predicate Frame(s: State) {
    Lives(s) && Descriptors(s) && FreedOnce(s)
  }

  /** s' differs from s only in what happens to client c. */
  ghost predicate OnlyTouches(s: State, s': State, c: Id) {
    && s'.slots == s.slots && s'.queue == s.queue && s'.busy == s.busy
    && s'.pipe == s.pipe && s'.stranded == s.stranded && s'.next == s.next
    && (forall d :: d != c ==> (d in s'.reg.heap <==> d in s.reg.heap))
    && (forall d :: d != c && d in s.reg.heap ==> s'.reg.heap[d] == s.reg.heap[d])
  }

  /** s with one reference to c given back, c staying allocated. */
  ghost function Lowered(s: State, c: Id): State
    requires c in s.reg.heap && s.reg.heap[c].refcount > 0
  {
    s.(reg := s.reg.(heap := s.reg.heap[c := s.reg.heap[c].(refcount := s.reg.heap[c].refcount - 1)]))
  }

  /** s with c freed and its descriptors closed. */
  ghost function Buried(s: State, c: Id): State
    requires c in s.reg.heap
  {
    s.(reg := s.reg.(heap := s.reg.heap - {c}), freed := s.freed + multiset{c},
       fds := s.fds - {s.reg.heap[c].c2s, s.reg.heap[c].s2c})
  }

  lemma ReleaseShape(s: State, c: Id)
    requires c in s.reg.heap && s.reg.heap[c].refcount > 0 && Owns(s, c, s.reg.heap[c].c2s, s.reg.heap[c].s2c)
    ensures ReleaseRef(s, c) == Fine(if s.reg.heap[c].dead && s.reg.heap[c].refcount == 1 then Buried(s, c) else Lowered(s, c))
  {
  }

  /** Only refcounts, flags and links differ. */
  ghost predicate SameEnds(s: State, s': State) {
    && s'.slots == s.slots && s'.fds == s.fds && s'.pipe == s.pipe && s'.next == s.next && s'.freed == s.freed
    && s'.reg.heap.Keys == s.reg.heap.Keys
    && (forall c :: c in s.reg.heap ==> s'.reg.heap[c].c2s == s.reg.heap[c].c2s && s'.reg.heap[c].s2c == s.reg.heap[c].s2c)
  }

  lemma SameEndsKeeps(s: State, s': State)
    requires Descriptors(s) && FreedOnce(s) && SameEnds(s, s')
    ensures Descriptors(s') && FreedOnce(s')
  {
    forall c | c in s'.reg.heap ensures c < s'.next && Owns(s', c, s'.reg.heap[c].c2s, s'.reg.heap[c].s2c) {
      assert c in s.reg.heap;
    }
    forall i | 0 <= i < |s'.pipe| && s'.pipe[i].HskOk? ensures Pending(s', s'.pipe[i]) {
      assert Pending(s, s.pipe[i]);
    }
  }

  lemma LoweredKeeps(s: State, c: Id)
    requires LedgerBut(s, c) && Frame(s) && Holders(s, c) > 0
    ensures Ledger(Lowered(s, c)) && Frame(Lowered(s, c))
  {
    var s' := Lowered(s, c);
    forall d: Id ensures Holders(s', d) == Refcount(s', d) {
      assert Holders(s', d) == Holders(s, d);
    }
    SameEndsKeeps(s, s');
  }

  lemma BuriedLedger(s: State, c: Id)
    requires LedgerBut(s, c) && Lives(s) && Holders(s, c) == 0
    ensures Ledger(Buried(s, c)) && Lives(Buried(s, c))
  {
    var s' := Buried(s, c);
    forall d: Id ensures Holders(s', d) == Refcount(s', d) {
      assert Holders(s', d) == Holders(s, d);
    }
  }

  lemma BuriedFrees(s: State, c: Id)
    requires c in s.reg.heap && Descriptors(s) && FreedOnce(s)
    ensures Descriptors(Buried(s, c)) && FreedOnce(Buried(s, c))
  {
    var s' := Buried(s, c);
    assert Owns(s, c, s.reg.heap[c].c2s, s.reg.heap[c].s2c);
    forall d | d in s'.reg.heap ensures d < s'.next && Owns(s', d, s'.reg.heap[d].c2s, s'.reg.heap[d].s2c) {
      assert Owns(s, d, s.reg.heap[d].c2s, s.reg.heap[d].s2c);
    }
    forall i | 0 <= i < |s'.pipe| && s'.pipe[i].HskOk? ensures Pending(s', s'.pipe[i]) {
      assert Pending(s, s.pipe[i]);
    }
  }

  /**
   After a release, the client is still allocated exactly when somebody else holds it:
   the list, a queued task, a task in a worker, a result in the pipe, or a lost reference.
   */
  lemma ReleaseKeeps(s: State, c: Id)
    requires LedgerBut(s, c) && Frame(s)
    ensures ReleaseRef(s, c) == Fine(if Holders(s, c) > 0 then Lowered(s, c) else Buried(s, c))
    ensures var s' := ReleaseRef(s, c).value;
            && Ledger(s') && Frame(s') && OnlyTouches(s, s', c) && s'.reg.linked == s.reg.linked
            && (c in s'.reg.heap <==> Holders(s, c) > 0)
  {
    ReleaseShape(s, c);
    if Holders(s, c) > 0 {
      LoweredKeeps(s, c);
    } else {
      BuriedLedger(s, c);
      BuriedFrees(s, c);
    }
  }

  /** s after the first two thirds of a removal. */
  ghost function Detached(s: State, c: Id): State
    requires c in s.reg.heap
  {
    s.(reg := Unlink(MarkDead(s.reg, c), c))
  }

  lemma DetachedKeeps(s: State, c: Id)
    requires Ledger(s) && Frame(s) && c in s.reg.linked && c in s.reg.heap
    ensures LedgerBut(Detached(s, c), c) && Frame(Detached(s, c))
    ensures Holders(Detached(s, c), c) == Outside(s, c)
  {
    WithoutMembers(s.reg.linked, c);
    assert Holders(s, c) == Refcount(s, c);
    var s' := Detached(s, c);
    forall d: Id | d != c ensures Holders(s', d) == Refcount(s', d) {
      assert Holders(s, d) == Refcount(s, d);
    }
    SameEndsKeeps(s, s');
  }

  lemma RemoveShape(s: State, c: Id)
    requires c in s.reg.linked && c in s.reg.heap
    ensures RemoveClient(s, c) == ReleaseRef(Detached(s, c), c)
    ensures OnlyTouches(s, Detached(s, c), c) && Detached(s, c).reg.linked == Without(s.reg.linked, c)
  {
  }

  /** Removing a linked client gives back the registry's reference and nothing else. */
  lemma RemoveKeeps(s: State, c: Id)
    requires Ledger(s) && Frame(s) && c in s.reg.linked && c in s.reg.heap
    ensures RemoveClient(s, c) == ReleaseRef(Detached(s, c), c)
    ensures RemoveClient(s, c).Fine?
    ensures var s' := RemoveClient(s, c).value;
            && Ledger(s') && Frame(s') && OnlyTouches(s, s', c)
            && s'.reg.linked == Without(s.reg.linked, c)
            && (c in s'.reg.heap <==> Outside(s, c) > 0)
  {
    RemoveShape(s, c);
    DetachedKeeps(s, c);
    ReleaseKeeps(Detached(s, c), c);
  }
}
