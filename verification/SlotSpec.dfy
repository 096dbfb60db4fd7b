/** The poll set as a sequence of slots, and removal by moving the last slot into the hole. */
module SlotSpec {
  import opened Common

  /** One poll slot: the descriptor polled and the client behind it (none for the two self-pipes). */
  datatype Slot<+C> = Slot(fd: int, client: Option<C>)

  /** The last element takes the place of element i. */
  function SwapRemoveAt<T>(s: seq<T>, i: nat): (r: seq<T>)
    requires i < |s|
    ensures |r| == |s| - 1
  {
    s[i := s[|s| - 1]][..|s| - 1]
  }

  /** The first slot polling fd, or the length of s when there is none. */
  function IndexOf<C>(s: seq<Slot<C>>, fd: int): (i: nat)
    ensures i <= |s|
    ensures i < |s| ==> s[i].fd == fd
    ensures forall j :: 0 <= j < i ==> s[j].fd != fd
  {
    if s == [] then 0 else if s[0].fd == fd then 0 else 1 + IndexOf(s[1..], fd)
  }

  /** server_remove_pollslots. */
  function RemoveFd<C>(s: seq<Slot<C>>, fd: int): seq<Slot<C>> {
    var i := IndexOf(s, fd);
    if i < |s| then SwapRemoveAt(s, i) else s
  }

  ghost predicate DistinctFds<C>(s: seq<Slot<C>>) {
    forall i, j :: 0 <= i < j < |s| ==> s[i].fd != s[j].fd
  }

  /** Swap-removal loses exactly the removed element. */
  lemma SwapRemoveMultiset<T>(s: seq<T>, i: nat)
    requires i < |s|
    ensures multiset(SwapRemoveAt(s, i)) == multiset(s) - multiset{s[i]}
  {
    var last := |s| - 1;
    assert s == s[..last] + [s[last]];
    if i < last {
      assert s[..last] == s[..i] + [s[i]] + s[i + 1..last];
      assert SwapRemoveAt(s, i) == s[..i] + [s[last]] + s[i + 1..last];
    } else {
      assert SwapRemoveAt(s, i) == s[..last];
    }
  }

  /** Of distinct elements, swap-removal keeps exactly the others. */
  lemma SwapRemoveKeepsOthers<T>(s: seq<T>, k: nat)
    requires k < |s| && forall j :: 0 <= j < |s| && j != k ==> s[j] != s[k]
    ensures forall x :: x in SwapRemoveAt(s, k) <==> x in s && x != s[k]
  {
    var r := SwapRemoveAt(s, k);
    forall x | x in s && x != s[k] ensures x in r {
      var j :| 0 <= j < |s| && s[j] == x;
      assert r[if j == |s| - 1 then k else j] == x;
    }
  }

  /** With distinct descriptors, removal by descriptor takes out that one slot and keeps all others. */
  lemma RemoveFdKeepsOthers<C>(s: seq<Slot<C>>, k: nat)
    requires k < |s| && DistinctFds(s)
    ensures IndexOf(s, s[k].fd) == k
    ensures DistinctFds(RemoveFd(s, s[k].fd))
    ensures |RemoveFd(s, s[k].fd)| == |s| - 1
    ensures forall x :: x in RemoveFd(s, s[k].fd) <==> x in s && x != s[k]
    ensures forall j :: 0 <= j < k && j < |s| - 1 ==> RemoveFd(s, s[k].fd)[j] == s[j]
  {
    assert IndexOf(s, s[k].fd) == k;
    SwapRemoveKeepsOthers(s, k);
  }
}
