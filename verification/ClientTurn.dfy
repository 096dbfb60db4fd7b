/** One client's turn in the main loop's sweep (server/src/animate_server.c): its requests are read and handled in a batch. */
module ClientTurn {
  import opened Common
  import opened Whitespace
  import opened Fifo
  import opened Transport
  import opened Commands

  const FIFO_MAX_PER_WAKE: nat := 5

  /** The server removes a client in this state for this text. */
  ghost predicate Ends(text: string, loggedIn: bool, dead: bool) {
    Reaction(Meaning(CString(text)), loggedIn, dead).0
  }

  /** What these texts of a client in this state bring about, in order. */
  ghost function EffectsOf(texts: seq<string>, loggedIn: bool, dead: bool): seq<Effect> {
    if texts == [] then []
    else EffectsOf(texts[..|texts| - 1], loggedIn, dead) + Reaction(Meaning(CString(texts[|texts| - 1])), loggedIn, dead).1
  }

  lemma OneMoreEffect(texts: seq<string>, text: string, loggedIn: bool, dead: bool)
    ensures EffectsOf(texts + [text], loggedIn, dead) ==
            EffectsOf(texts, loggedIn, dead) + Reaction(Meaning(CString(text)), loggedIn, dead).1
  {
    assert (texts + [text])[..|texts|] == texts;
  }

  /** One read of the batch: the next text sent, or the reason why there is none. */
  method ReadNext(p: Pipe, buf: array<char>, ghost sent: seq<string>, ghost received: seq<string>, ghost patience: nat)
    returns (ret: ErrType, text: string)
    requires Patient(p.answers, patience) && buf.Length == MAX_RPC_BUF_LEN && InStep(sent, received, p.bytes)
    modifies p`bytes, p`calls, p`last, buf
    ensures p.calls >= old(p.calls)
    ensures ret == SUCCESS ==> InStep(sent, received + [text], p.bytes)
    ensures ret != SUCCESS ==> p.calls > old(p.calls) && (ret == PIPE_EMPTY <==> p.last == Failed(EAGAIN))
    ensures ret != SUCCESS && Prompt(p.answers) ==> InStep(sent, received, p.bytes) && received == sent
  {
    ghost var wire := p.bytes;
    var len;
    ret, len := ReadUntilDelim(p, buf, MAX_RPC_BUF_LEN, '\n', patience);
    ReceiveKeepsStep(sent, received, wire);
    text := buf[..len];
    if ret == SUCCESS {
      TakenIsNext(sent, received, wire);
    }
  }

  /** How a turn ends: with a text that removes the client, a broken connection, nothing more to read for now, or enough. */
  datatype TurnEnd = Removed | Broken | Drained | Enough

  /** What has been handled so far: none of these texts removes the client, and these are their effects. */
  ghost predicate Handled(texts: seq<string>, effects: seq<Effect>, loggedIn: bool, dead: bool) {
    effects == EffectsOf(texts, loggedIn, dead) && forall i :: 0 <= i < |texts| ==> !Ends(texts[i], loggedIn, dead)
  }

  /**
   A batch that has ended: at most five texts, with their effects in order; none but the last removes the client, and it
   does exactly when that is how the batch ended.
   */
  ghost predicate Batch(texts: seq<string>, effects: seq<Effect>, loggedIn: bool, dead: bool, end: TurnEnd) {
    && |texts| <= 5 && effects == EffectsOf(texts, loggedIn, dead)
    && (forall i :: 0 <= i < |texts| - 1 ==> !Ends(texts[i], loggedIn, dead))
    && (end == Removed <==> texts != [] && Ends(texts[|texts| - 1], loggedIn, dead))
    && (end == Enough ==> |texts| == 5)
  }

  lemma HandledIsBatch(texts: seq<string>, effects: seq<Effect>, loggedIn: bool, dead: bool, end: TurnEnd)
    requires Handled(texts, effects, loggedIn, dead) && |texts| <= 5 && end != Removed && (end == Enough ==> |texts| == 5)
    ensures Batch(texts, effects, loggedIn, dead, end)
  {
  }

  /** One more text, which may be the last. */
  lemma HandledOne(texts: seq<string>, effects: seq<Effect>, loggedIn: bool, dead: bool, text: string, more: seq<Effect>)
    requires Handled(texts, effects, loggedIn, dead) && more == Reaction(Meaning(CString(text)), loggedIn, dead).1
    ensures if Ends(text, loggedIn, dead) then |texts| < 5 ==> Batch(texts + [text], effects + more, loggedIn, dead, Removed)
            else Handled(texts + [text], effects + more, loggedIn, dead)
  {
    OneMoreEffect(texts, text, loggedIn, dead);
  }

  /** One read and, if it got a text, its handling. */
  method HandleNext(p: Pipe, buf: array<char>, loggedIn: bool, dead: bool, before: seq<Effect>, ghost texts: seq<string>,
                    ghost sent: seq<string>, ghost received: seq<string>, ghost patience: nat)
    returns (toRemove: bool, goOn: bool, effects: seq<Effect>, ghost now: seq<string>, ghost end: TurnEnd)
    requires Patient(p.answers, patience) && buf.Length == MAX_RPC_BUF_LEN && InStep(sent, received, p.bytes)
    requires Handled(texts, before, loggedIn, dead) && |texts| < 5
    modifies p`bytes, p`calls, p`last, buf
    ensures p.calls >= old(p.calls) && |now| <= 1
    ensures goOn ==> |now| == 1 && Handled(texts + now, effects, loggedIn, dead) && end == Enough
    ensures !goOn ==> Batch(texts + now, effects, loggedIn, dead, end) && end != Enough
    ensures toRemove <==> end.Removed? || end.Broken?
    ensures end == Drained ==> p.last == Failed(EAGAIN)
    ensures end == Broken ==> p.calls > old(p.calls) && p.last != Failed(EAGAIN)
    ensures received + now <= sent
    ensures end.Removed? || end.Enough? || Prompt(p.answers) ==> InStep(sent, received + now, p.bytes)
    ensures Prompt(p.answers) && (end.Drained? || end.Broken?) ==> received + now == sent
  {
    var ret, text := ReadNext(p, buf, sent, received, patience);
    assert texts + [] == texts && received + [] == received;
    if ret == PIPE_EMPTY {
      HandledIsBatch(texts, before, loggedIn, dead, Drained);
      return false, false, before, [], Drained;
    }
    if ret != SUCCESS {
      HandledIsBatch(texts, before, loggedIn, dead, Broken);
      return true, false, before, [], Broken;
    }
    var remove, more := HandleCommand(loggedIn, dead, CString(text));
    HandledOne(texts, before, loggedIn, dead, text, more);
    return remove, !remove, before + more, [text], if remove then Removed else Enough;
  }

  lemma Appended(received: seq<string>, texts: seq<string>, now: seq<string>)
    ensures received + texts + now == received + (texts + now)
  {
  }

  /**
   The batch. The texts handled are the next ones sent, in order. The client goes exactly when the last of them removes
   it, or when the read after them was answered with anything but EAGAIN; with a kernel that hands over what the pipe
   holds, the batch is cut short only by a removal or when all that was sent has been handled.
   */
  method HandleBatch(p: Pipe, buf: array<char>, loggedIn: bool, dead: bool, ghost sent: seq<string>, ghost received: seq<string>,
                     ghost patience: nat)
    returns (toRemove: bool, effects: seq<Effect>, ghost texts: seq<string>, ghost end: TurnEnd)
    requires Patient(p.answers, patience) && buf.Length == MAX_RPC_BUF_LEN && InStep(sent, received, p.bytes)
    modifies p`bytes, p`calls, p`last, buf
    ensures Batch(texts, effects, loggedIn, dead, end) && received + texts <= sent
    ensures toRemove <==> end.Removed? || end.Broken?
    ensures end == Drained ==> p.last == Failed(EAGAIN)
    ensures end == Broken ==> p.calls > old(p.calls) && p.last != Failed(EAGAIN)
    ensures end.Removed? || end.Enough? || Prompt(p.answers) ==> InStep(sent, received + texts, p.bytes)
    ensures Prompt(p.answers) && (end.Drained? || end.Broken?) ==> received + texts == sent
  {
    effects, texts, end := [], [], Enough;
    assert received + texts == received;
    for req := 0 to FIFO_MAX_PER_WAKE
      invariant |texts| == req && InStep(sent, received + texts, p.bytes)
      invariant Handled(texts, effects, loggedIn, dead) && p.calls >= old(p.calls) && end == Enough
    {
      var goOn;
      ghost var now;
      toRemove, goOn, effects, now, end := HandleNext(p, buf, loggedIn, dead, effects, texts, sent, received + texts, patience);
      Appended(received, texts, now);
      texts := texts + now;
      if !goOn {
        return;
      }
    }
    HandledIsBatch(texts, effects, loggedIn, dead, Enough);
    toRemove := false;
  }
}
