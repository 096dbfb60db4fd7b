/** The task queue in memory: a singly linked list with a tail pointer and a counter. */
module TaskQueue {
  import opened Common

  class Node<T> {
    const task: T
    var next: Node?<T>

    constructor (task: T)
      ensures this.task == task && next == null
    {
      this.task := task;
      next := null;
    }
  }

  /** The tasks in these nodes. */
  function Tasks<T>(nodes: seq<Node<T>>): (ts: seq<T>)
    ensures |ts| == |nodes| && forall i :: 0 <= i < |nodes| ==> ts[i] == nodes[i].task
  {
    if nodes == [] then [] else [nodes[0].task] + Tasks(nodes[1..])
  }

  class TaskQueue<T> {
    var head: Node?<T>
    var tail: Node?<T>
    var count: nat
    ghost var spine: seq<Node<T>>   // the nodes reachable from head, in order

    /** The list is acyclic, the tail is its last node, and the counter is its length. */
    ghost predicate Valid()
      reads this, spine
    {
      && count == |spine|
      && head == (if spine == [] then null else spine[0])
      && tail == (if spine == [] then null else spine[|spine| - 1])
      && (forall i, j :: 0 <= i < j < |spine| ==> spine[i] != spine[j])
      && (forall i, j :: 0 <= i < |spine| && j == i + 1 < |spine| ==> spine[i].next == spine[j])
      && (spine != [] ==> spine[|spine| - 1].next == null)
    }

    /** The queued tasks, oldest first. */
    ghost function Contents(): seq<T>
      reads this
    {
      Tasks(spine)
    }

    /** task_init. */
    constructor ()
      ensures Valid() && Contents() == []
    {
      head, tail, count, spine := null, null, 0, [];
    }

    /** task_enqueue up to the signal; room tells whether malloc finds memory. */
    method Enqueue(task: T, room: bool) returns (ret: ErrType)
      requires Valid()
      modifies this, spine
      ensures Valid()
      ensures ret == if room then SUCCESS else TQ_FAIL
      ensures Contents() == if room then old(Contents()) + [task] else old(Contents())
    {
      if !room {
        return TQ_FAIL;
      }
      var newtask := new Node(task);
      if tail == null {
        head := newtask;
        tail := newtask;
      } else {
        tail.next := newtask;
        tail := newtask;
      }
      count := count + 1;
      spine := spine + [newtask];
      assert Contents() == old(Contents()) + [task];
      ret := SUCCESS;
    }

    /**
     task_dequeue from the end of its wait loop on. The list is emptied by the counter reaching zero: that is
     sound only because the counter is the length of the list.
     */
    method Dequeue(running: bool) returns (task: Option<T>)
      requires Valid()
      modifies this
      ensures Valid()
      ensures !running || old(Contents()) == [] ==> task == None && Contents() == old(Contents())
      ensures running && old(Contents()) != [] ==> task == Some(old(Contents())[0]) && Contents() == old(Contents())[1..]
    {
      if !running {
        return None;
      }
      var currtask := head;
      if currtask == null {
        return None;
      }
      head := head.next;
      count := count - 1;
      if count == 0 {
        head := null;
        tail := null;
      }
      spine := spine[1..];
      assert Contents() == old(Contents())[1..];
      task := Some(currtask.task);
    }

    /** task_destroy: once the server is stopping, frees every queued node once, oldest first. */
    method Destroy(running: bool) returns (freed: seq<Node<T>>)
      requires Valid()
      modifies this
      ensures running ==> freed == [] && Valid() && spine == old(spine)
      ensures !running ==> freed == old(spine) && head == null
    {
      freed := [];
      if running {
        return;
      }
      while head != null
        invariant |freed| <= |spine| && spine == old(spine) && freed == spine[..|freed|]
        invariant head == if |freed| < |spine| then spine[|freed|] else null
        decreases |spine| - |freed|
      {
        var next := head.next;
        freed := freed + [head];
        head := next;
      }
    }
  }
}
