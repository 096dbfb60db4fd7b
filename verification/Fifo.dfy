/** The byte-moving loops of misc/src/fifo.c, against a kernel that may answer any way it likes. */
module Fifo {
  import opened Common

  datatype Errno = EINTR | EPIPE | EAGAIN | OTHER

  /** The kernel's answer to one read or write: a number of bytes moved, or an error. */
  datatype Answer = Moved(n: nat) | Failed(errno: Errno)

  /** From call number patience on, no system call is interrupted any more. */
  ghost predicate Patient(answers: (nat, nat) -> Answer, patience: nat) {
    forall i: nat, held: nat :: i >= patience ==> answers(i, held) != Failed(EINTR)
  }

  /** Writes of up to this size are all-or-nothing, as POSIX promises for pipes up to PIPE_BUF bytes. */
  ghost predicate Atomic(answers: (nat, nat) -> Answer, size: nat) {
    forall i: nat, held: nat :: answers(i, held).Moved? && answers(i, held).n > 0 ==> answers(i, held).n >= size
  }

  /** While a write is not interrupted it is accepted: the pipe is neither full nor closed. */
  ghost predicate Willing(answers: (nat, nat) -> Answer) {
    forall i: nat, held: nat :: answers(i, held) == Failed(EINTR) || (answers(i, held).Moved? && answers(i, held).n > 0)
  }

  /** While the pipe holds bytes, a read is answered with some of them, unless it is interrupted. */
  ghost predicate Prompt(answers: (nat, nat) -> Answer) {
    forall i: nat, held: nat :: held > 0 ==>
      answers(i, held) == Failed(EINTR) || (answers(i, held).Moved? && answers(i, held).n > 0)
  }

  /**
   An open FIFO: the bytes in it, oldest first, and the answers its system calls are going to give, which
   may depend on how many bytes it holds.
   */
  class Pipe {
    var bytes: seq<char>
    var calls: nat
    ghost var last: Answer    // the answer to the most recent system call
    const answers: (nat, nat) -> Answer

    constructor (answers: (nat, nat) -> Answer)
      ensures bytes == [] && calls == 0 && this.answers == answers
    {
      this.answers := answers;
      bytes, calls, last := [], 0, Moved(0);
    }

    /** write(2): a prefix of the chunk goes to the end of the pipe, or nothing does. */
    method SysWrite(chunk: seq<char>) returns (n: int, errno: Errno)
      requires chunk != []
      modifies this`bytes, this`calls, this`last
      ensures calls == old(calls) + 1 && last == answers(old(calls), |old(bytes)|) && -1 <= n <= |chunk|
      ensures bytes == old(bytes) + if n > 0 then chunk[..n] else []
      ensures match last case Failed(e) => n == -1 && errno == e case Moved(k) => n == if k <= |chunk| then k else |chunk|
    {
      var answer := answers(calls, |bytes|);
      calls, last := calls + 1, answer;
      match answer
      case Failed(e) => n, errno := -1, e;
      case Moved(k) =>
        n, errno := if k <= |chunk| then k else |chunk|, OTHER;
        bytes := bytes + chunk[..n];
    }

    /** read(2): up to room bytes leave the front of the pipe; a zero answer means end of file. */
    method SysRead(room: nat) returns (n: int, errno: Errno, chunk: seq<char>)
      requires room > 0
      modifies this`bytes, this`calls, this`last
      ensures calls == old(calls) + 1 && last == answers(old(calls), |old(bytes)|) && -1 <= n <= room && |chunk| == if n > 0 then n else 0
      ensures old(bytes) == chunk + bytes
      ensures match last case Failed(e) => n == -1 && errno == e case Moved(_) => n >= 0
      ensures old(bytes) != [] && last.Moved? && last.n > 0 ==> n > 0
    {
      var answer := answers(calls, |bytes|);
      calls, last := calls + 1, answer;
      chunk := [];
      match answer
      case Failed(e) => n, errno := -1, e;
      case Moved(k) =>
        var m := if k <= room then k else room;
        n, errno := if m <= |bytes| then m else |bytes|, OTHER;
        chunk, bytes := bytes[..n], bytes[n..];
    }
  }

  /**
   write_nonblock_pipe. Whatever the kernel answers, exactly the first moved bytes of the buffer enter the
   pipe, in order; the result is SUCCESS iff that is all of them, and FULL and PARTIAL tell none from some.
   */
  method WriteNonblock(p: Pipe, buf: seq<char>, ghost patience: nat) returns (ret: ErrType, ghost moved: nat)
    requires Patient(p.answers, patience)
    modifies p`bytes, p`calls, p`last
    ensures moved <= |buf| && p.bytes == old(p.bytes) + buf[..moved]
    ensures ret == SUCCESS <==> moved == |buf|
    ensures moved < |buf| ==> p.calls > old(p.calls) && p.last != Failed(EINTR)
    ensures ret == PIPE_FULL <==> 0 == moved < |buf| && p.last == Failed(EAGAIN)
    ensures ret == PIPE_PARTIAL <==> 0 < moved < |buf| && p.last == Failed(EAGAIN)
    ensures ret == PIPE_CLOSED <==> moved < |buf| && p.last == Failed(EPIPE)
    ensures ret in {SUCCESS, PIPE_FULL, PIPE_PARTIAL, PIPE_CLOSED, PIPE_WRITE_FAIL}
    ensures Atomic(p.answers, |buf|) ==> moved == 0 || moved == |buf|
    ensures Willing(p.answers) ==> ret == SUCCESS
  {
    var written := 0;
    while written < |buf|
      invariant written <= |buf| && p.bytes == old(p.bytes) + buf[..written] && p.calls >= old(p.calls)
      invariant Atomic(p.answers, |buf|) ==> written == 0 || written == |buf|
      decreases |buf| - written, if p.calls < patience then patience - p.calls else 0
    {
      var n, errno := p.SysWrite(buf[written..]);
      if n > 0 {
        assert buf[..written] + buf[written..][..n] == buf[..written + n];
        written := written + n;
        continue;
      } else if n == 0 {
        return PIPE_WRITE_FAIL, written;
      } else {
        if errno == EINTR {
          continue;
        } else if errno == EPIPE {
          return PIPE_CLOSED, written;
        } else if errno == EAGAIN {
          if written == 0 {
            return PIPE_FULL, written;
          }
          return PIPE_PARTIAL, written;
        } else {
          return PIPE_WRITE_FAIL, written;
        }
      }
    }
    assert buf[..written] == buf;
    return SUCCESS, written;
  }

  /** write_block_pipe: the same, except that EAGAIN is a failure like any other. */
  method WriteBlock(p: Pipe, buf: seq<char>, ghost patience: nat) returns (ret: ErrType, ghost moved: nat)
    requires Patient(p.answers, patience)
    modifies p`bytes, p`calls, p`last
    ensures moved <= |buf| && p.bytes == old(p.bytes) + buf[..moved]
    ensures ret == SUCCESS <==> moved == |buf|
    ensures moved < |buf| ==> p.calls > old(p.calls) && p.last != Failed(EINTR)
    ensures ret == PIPE_CLOSED <==> moved < |buf| && p.last == Failed(EPIPE)
    ensures ret in {SUCCESS, PIPE_CLOSED, PIPE_WRITE_FAIL}
    ensures Atomic(p.answers, |buf|) ==> moved == 0 || moved == |buf|
    ensures Willing(p.answers) ==> ret == SUCCESS
  {
    var written := 0;
    while written < |buf|
      invariant written <= |buf| && p.bytes == old(p.bytes) + buf[..written] && p.calls >= old(p.calls)
      invariant Atomic(p.answers, |buf|) ==> written == 0 || written == |buf|
      decreases |buf| - written, if p.calls < patience then patience - p.calls else 0
    {
      var n, errno := p.SysWrite(buf[written..]);
      if n > 0 {
        assert buf[..written] + buf[written..][..n] == buf[..written + n];
        written := written + n;
        continue;
      } else if n == 0 {
        return PIPE_WRITE_FAIL, written;
      } else {
        if errno == EINTR {
          continue;
        } else if errno == EPIPE {
          return PIPE_CLOSED, written;
        } else {
          return PIPE_WRITE_FAIL, written;
        }
      }
    }
    return SUCCESS, written;
  }

  /**
   read_nonblock_pipe. Exactly the first moved bytes of the pipe arrive at the start of the buffer, in order,
   and the rest of both stays as it was; SUCCESS iff the whole target moved, EMPTY and PARTIAL tell none from some.
   */
  method ReadNonblock(p: Pipe, buf: array<char>, target: nat, ghost patience: nat) returns (ret: ErrType, ghost moved: nat)
    requires Patient(p.answers, patience) && target <= buf.Length
    modifies p`bytes, p`calls, p`last, buf
    ensures moved <= target && old(p.bytes) == buf[..moved] + p.bytes
    ensures buf[moved..] == old(buf[..])[moved..]
    ensures ret == SUCCESS <==> moved == target
    ensures moved < target ==> p.calls > old(p.calls) && p.last != Failed(EINTR)
    ensures ret == PIPE_EMPTY <==> 0 == moved < target && p.last == Failed(EAGAIN)
    ensures ret == PIPE_PARTIAL <==> 0 < moved < target && p.last == Failed(EAGAIN)
    ensures ret == PIPE_CLOSED <==> moved < target && p.last.Moved?
    ensures ret in {SUCCESS, PIPE_EMPTY, PIPE_PARTIAL, PIPE_CLOSED, PIPE_READ_FAIL}
    ensures Prompt(p.answers) && |old(p.bytes)| >= target ==> ret == SUCCESS
  {
    var nRead := 0;
    ghost var before, stream, got := buf[..], p.bytes, [];
    while nRead < target
      invariant nRead <= target && got == buf[..nRead] && stream == got + p.bytes && p.calls >= old(p.calls)
      invariant buf[nRead..] == before[nRead..]
      decreases target - nRead, if p.calls < patience then patience - p.calls else 0
    {
      assert before[nRead..] == buf[nRead..];
      var n, errno, chunk := p.SysRead(target - nRead);
      if n > 0 {
        CopyInto(buf, nRead, chunk);
        assert before[nRead..][n..] == before[nRead + n..];
        assert stream == got + chunk + p.bytes;
        nRead, got := nRead + n, got + chunk;
        continue;
      } else if n == 0 {
        return PIPE_CLOSED, nRead;
      } else {
        if errno == EINTR {
          continue;
        } else if errno == EAGAIN {
          if nRead == 0 {
            return PIPE_EMPTY, nRead;
          }
          return PIPE_PARTIAL, nRead;
        } else {
          return PIPE_READ_FAIL, nRead;
        }
      }
    }
    return SUCCESS, nRead;
  }

  /** The kernel's copy of a chunk into the caller's buffer. */
  method CopyInto(buf: array<char>, at: nat, chunk: seq<char>)
    requires at + |chunk| <= buf.Length
    modifies buf
    ensures buf[..at + |chunk|] == old(buf[..at]) + chunk
    ensures buf[at + |chunk|..] == old(buf[at..])[|chunk|..]
  {
    forall i | 0 <= i < |chunk| {
      buf[at + i] := chunk[i];
    }
  }

  /**
   What reading up to a delimiter takes from a stream: the text before the first delimiter, which is dropped,
   or as many characters as fit when no delimiter comes that early; nothing when the stream runs out first.
   */
  function TakeRecord(stream: seq<char>, delim: char, limit: nat): (r: Option<(seq<char>, seq<char>)>)
  {
    if limit == 0 then Some(([], stream))
    else if stream == [] then None
    else if stream[0] == delim then Some(([], stream[1..]))
    else match TakeRecord(stream[1..], delim, limit - 1)
      case None => None
      case Some((record, rest)) => Some(([stream[0]] + record, rest))
  }

  lemma {:induction false} TakeRecordShort(record: seq<char>, delim: char, rest: seq<char>, limit: nat)
    requires delim !in record && |record| < limit
    ensures TakeRecord(record + [delim] + rest, delim, limit) == Some((record, rest))
  {
    var stream := record + [delim] + rest;
    if record == [] {
      assert stream[1..] == rest;
    } else {
      assert stream[1..] == record[1..] + [delim] + rest;
      TakeRecordShort(record[1..], delim, rest, limit - 1);
      assert [record[0]] + record[1..] == record;
    }
  }

  lemma {:induction false} TakeRecordFull(record: seq<char>, delim: char, rest: seq<char>, limit: nat)
    requires delim !in record && |record| == limit
    ensures TakeRecord(record + rest, delim, limit) == Some((record, rest))
  {
    if record == [] {
      assert record + rest == rest;
    } else {
      assert (record + rest)[1..] == record[1..] + rest;
      TakeRecordFull(record[1..], delim, rest, limit - 1);
      assert [record[0]] + record[1..] == record;
    }
  }

  lemma {:induction false} TakeRecordNone(stream: seq<char>, delim: char, limit: nat)
    requires delim !in stream && |stream| < limit
    ensures TakeRecord(stream, delim, limit) == None
  {
    if stream != [] {
      TakeRecordNone(stream[1..], delim, limit - 1);
    }
  }

  /** One character stored behind the first `at`. */
  method Put(buf: array<char>, at: nat, c: char)
    requires at < buf.Length
    modifies buf
    ensures buf[..at + 1] == old(buf[..at]) + [c] && buf[..at] == old(buf[..at])
  {
    buf[at] := c;
  }

  /** read_until_delim, which reads one byte at a time. */
  method ReadUntilDelim(p: Pipe, buf: array<char>, maxlen: nat, delim: char, ghost patience: nat)
    returns (ret: ErrType, len: nat)
    requires Patient(p.answers, patience) && 1 <= maxlen <= buf.Length
    modifies p`bytes, p`calls, p`last, buf
    ensures len < maxlen && p.calls >= old(p.calls)
    ensures ret == SUCCESS ==> TakeRecord(old(p.bytes), delim, maxlen - 1) == Some((buf[..len], p.bytes)) && buf[len] == '\0'
    ensures ret != SUCCESS ==> old(p.bytes) == buf[..len] + p.bytes && delim !in buf[..len] && len < maxlen - 1
    ensures ret != SUCCESS ==> p.calls > old(p.calls) && p.last != Failed(EINTR)
    ensures ret != SUCCESS ==> (ret == PIPE_EMPTY <==> p.last == Failed(EAGAIN)) && (ret == PIPE_CLOSED <==> p.last.Moved?)
    ensures ret in {SUCCESS, PIPE_EMPTY, PIPE_CLOSED, PIPE_READ_FAIL}
    ensures Prompt(p.answers) && ret != SUCCESS ==> p.bytes == [] && TakeRecord(old(p.bytes), delim, maxlen - 1) == None
  {
    len := 0;
    ghost var stream, got := p.bytes, [];
    while len < maxlen - 1
      invariant len < maxlen && got == buf[..len] && stream == got + p.bytes && delim !in got && p.calls >= old(p.calls)
      decreases maxlen - len, if p.calls < patience then patience - p.calls else 0
    {
      TakeRecordNone(got, delim, maxlen - 1);
      var n, errno, chunk := p.SysRead(1);
      assert n <= 0 && p.bytes == [] ==> stream == got;
      if n > 0 {
        var c := chunk[0];
        assert stream == got + [c] + p.bytes;
        if c == delim {
          Put(buf, len, '\0');
          TakeRecordShort(got, delim, p.bytes, maxlen - 1);
          return SUCCESS, len;
        }
        Put(buf, len, c);
        len, got := len + 1, got + [c];
      } else if n == 0 {
        return PIPE_CLOSED, len;
      } else {
        if errno == EAGAIN {
          return PIPE_EMPTY, len;
        }
        if errno == EINTR {
          continue;
        }
        return PIPE_READ_FAIL, len;
      }
    }
    Put(buf, len, '\0');
    TakeRecordFull(got, delim, p.bytes, maxlen - 1);
    ret := SUCCESS;
  }
}
