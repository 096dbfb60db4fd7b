/**
 The client registry as a value: which clients are allocated, what each one records,
 and the order in which they are linked. The type parameter C names a client: the
 linked-list class instantiates it with its nodes, the whole-server protocol with numbers.
 */
module RegistrySpec {

  /** The fields of one allocated client. */
  datatype Cell = Cell(pid: int, c2s: int, s2c: int, refcount: nat, loggedIn: bool, dead: bool)

  datatype Registry<C(==)> = Registry(heap: map<C, Cell>, linked: seq<C>)

  /** The sequence without the first occurrence of c; unchanged when c does not occur. */
  function Without<C(==)>(s: seq<C>, c: C): (r: seq<C>)
  {
    if s == [] then []
    else if s[0] == c then s[1..]
    else [s[0]] + Without(s[1..], c)
  }

  /** creg_insert: a new client holds one reference and goes to the front of the list. */
  function Insert<C>(r: Registry<C>, c: C, pid: int, c2s: int, s2c: int): Registry<C> {
    Registry(r.heap[c := Cell(pid, c2s, s2c, 1, false, false)], [c] + r.linked)
  }

  /** creg_acquire_client: refused for a dead client. */
  function Acquire<C>(r: Registry<C>, c: C): Registry<C>
    requires c in r.heap
  {
    var cell := r.heap[c];
    if cell.dead then r else r.(heap := r.heap[c := cell.(refcount := cell.refcount + 1)])
  }

  /** creg_release_client: a dead client leaves the heap with its last reference. */
  function Release<C>(r: Registry<C>, c: C): Registry<C>
    requires c in r.heap && r.heap[c].refcount > 0
  {
    var cell := r.heap[c];
    if cell.dead && cell.refcount == 1 then r.(heap := r.heap - {c})
    else r.(heap := r.heap[c := cell.(refcount := cell.refcount - 1)])
  }

  /** client_markdead, as far as the client record goes. */
  function MarkDead<C>(r: Registry<C>, c: C): Registry<C>
    requires c in r.heap
  {
    r.(heap := r.heap[c := r.heap[c].(dead := true)])
  }

  /** creg_unlink. */
  function Unlink<C>(r: Registry<C>, c: C): Registry<C> {
    r.(linked := Without(r.linked, c))
  }

  /** creg_remove: mark dead, unlink, then drop the registry's own reference. */
  function Remove<C>(r: Registry<C>, c: C): Registry<C>
    requires c in r.heap && r.heap[c].refcount > 0
  {
    Release(Unlink(MarkDead(r, c), c), c)
  }

  /** No client is linked twice. */
  ghost predicate Distinct<C>(s: seq<C>) {
    forall i, j :: 0 <= i < j < |s| ==> s[i] != s[j]
  }

  /** Unlinking takes out exactly the named client, wherever it sits, and keeps the order of the rest. */
  lemma {:induction false} WithoutRemovesOne<C>(s: seq<C>, i: nat)
    requires i < |s| && Distinct(s)
    ensures Without(s, s[i]) == s[..i] + s[i + 1..]
    ensures Distinct(Without(s, s[i]))
    ensures forall x :: x in Without(s, s[i]) <==> x in s && x != s[i]
  {
    if i > 0 {
      WithoutRemovesOne(s[1..], i - 1);
      assert s[1..][..i - 1] == s[1..i] && s[1..][i..] == s[i + 1..];
    }
    var w := s[..i] + s[i + 1..];
    assert Without(s, s[i]) == w;
    forall x ensures x in w <==> x in s && x != s[i] {
      if x in s && x != s[i] {
        var j :| 0 <= j < |s| && s[j] == x;
        assert w[if j < i then j else j - 1] == x;
      }
    }
  }

  /** Unlinking a client that is not in the list changes nothing. */
  lemma {:induction false} WithoutAbsent<C>(s: seq<C>, c: C)
    requires c !in s
    ensures Without(s, c) == s
  {
    if s != [] {
      WithoutAbsent(s[1..], c);
    }
  }

  /** After unlinking, the list holds the other clients, still each once. */
  lemma WithoutMembers<C>(s: seq<C>, c: C)
    requires Distinct(s)
    ensures Distinct(Without(s, c))
    ensures forall x :: x in Without(s, c) <==> x in s && x != c
  {
    if c in s {
      var i :| 0 <= i < |s| && s[i] == c;
      WithoutRemovesOne(s, i);
    } else {
      WithoutAbsent(s, c);
    }
  }
}
