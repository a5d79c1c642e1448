/**
 * What a run has to show, told by its operations alone: which request each of them answers,
 * and what the answer is on the flat store. A transfer answers the request its user has
 * started last, however long ago.
 */
module Requests {
  import opened CacheTypes
  import opened CacheStore
  import opened FlatStore
  import opened RequestSteps

  datatype Request =
    | NoRequest
    | ReadPages(path: Path, page: nat, count: nat)
    | WritePages(path: Path, page: nat, data: seq<Data>)
    | DiscardBlock(key: Key)

  /** The request user `u` has started last. */
  function Started(ops: seq<Op>, u: nat): Request {
    if ops == [] then NoRequest
    else
      var n := |ops| - 1;
      match ops[n]
      case StartRead(v, path, page, count) =>
        if v == u then ReadPages(path, page, count) else Started(ops[..n], u)
      case StartWrite(v, path, page, data) =>
        if v == u then WritePages(path, page, data) else Started(ops[..n], u)
      case _ => Started(ops[..n], u)
  }

  /** The request that operation `op` answers after `before`; a rejected one gets no answer. */
  function Asked(before: seq<Op>, op: Op): Request {
    match op
    case Read(path, page, count) => if CheckPio(page, count) then ReadPages(path, page, count) else NoRequest
    case Write(path, page, data) => if CheckPio(page, |data|) then WritePages(path, page, data) else NoRequest
    case Discard(path, page, count) =>
      if page < U32 && CheckPio(page, count) then DiscardBlock(KeyOf(path, page)) else NoRequest
    case Transfer(u) => Started(before, u)
    case _ => NoRequest
  }

  /** Event `e` answers the request as the flat store does: a read in full, a write with all its pages. */
  ghost predicate Answers(f: Flat, r: Request, e: Event) {
    match r
    case NoRequest => e == Internal
    case ReadPages(path, page, count) => e == DidRead(path, page, FlatRead(f, path, page, count))
    case WritePages(path, page, data) => e == DidWrite(path, page, data)
    case DiscardBlock(k) => e.DidDiscard? && e.key == k
  }

  /** Every operation of the run shows the answer to what it was asked. */
  ghost predicate AllAnswered(f: Flat, ops: seq<Op>, events: seq<Event>) {
    && |events| == |ops|
    && forall i :: 0 <= i < |ops| ==> Answers(Replay(f, events[..i]), Asked(ops[..i], ops[i]), events[i])
  }

  /** What users are about to do is what they have started last. */
  ghost predicate PendingAsStarted(d: Store, ops: seq<Op>) {
    forall u :: 0 <= u < |d.users| ==>
                  match d.users[u]
                  case ToRead(path, page, count, _) => Started(ops, u) == ReadPages(path, page, count)
                  case ToWrite(path, page, data, _) => Started(ops, u) == WritePages(path, page, data)
                  case _ => true
  }

  lemma StartedBefore(ops: seq<Op>, op: Op, u: nat)
    ensures Started(ops + [op], u) ==
            if op.StartRead? && op.u == u then ReadPages(op.path, op.page, op.count)
            else if op.StartWrite? && op.u == u then WritePages(op.path, op.page, op.data)
            else Started(ops, u)
  {
    assert (ops + [op])[..|ops|] == ops;
  }

  /** An operation changes at most what its own user is about to do. */
  lemma OthersPend(d: Store, op: Op)
    requires StoreSane(d) && CanDo(d, op)
    ensures |Do(d, op).users| == |d.users|
    ensures forall v :: 0 <= v < |d.users| &&
                        !((op.StartRead? || op.StartWrite? || op.Transfer? || op.Mark?) && op.u == v) ==>
                          Do(d, op).users[v] == d.users[v]
    ensures op.Transfer? || op.Mark? ==> !Do(d, op).users[op.u].ToRead? && !Do(d, op).users[op.u].ToWrite?
  {
    if op.Write? && CheckPio(op.page, |op.data|) {
      WriteOp(d, op);
    }
  }

  /** A started request is what its user is about to do next. */
  lemma StartPends(d: Store, op: Op)
    requires StoreSane(d) && CanDo(d, op) && (op.StartRead? || op.StartWrite?)
    ensures op.u < |Do(d, op).users|
    ensures var p := Do(d, op).users[op.u];
            if op.StartRead? then p == ToRead(op.path, op.page, op.count, p.from) && p.ToRead?
            else p.ToWrite? && p == ToWrite(op.path, op.page, op.data, p.to)
  {
  }

  lemma PendingStays(d: Store, ops: seq<Op>, op: Op)
    requires StoreSane(d) && CanDo(d, op) && PendingAsStarted(d, ops)
    ensures PendingAsStarted(Do(d, op), ops + [op])
  {
    var e := Do(d, op);
    OthersPend(d, op);
    if op.StartRead? || op.StartWrite? {
      StartPends(d, op);
    }
    forall u | 0 <= u < |e.users|
      ensures match e.users[u]
              case ToRead(path, page, count, _) => Started(ops + [op], u) == ReadPages(path, page, count)
              case ToWrite(path, page, data, _) => Started(ops + [op], u) == WritePages(path, page, data)
              case _ => true
    {
      StartedBefore(ops, op, u);
    }
  }

  // ---------------------------------------------------------------- answers

  lemma ReadAnswers(d: Store, f: Flat, op: Op, before: seq<Op>)
    requires StoreInv(d, f) && op.Read? && CanDo(d, op) && Safe(d, op)
    ensures Answers(f, Asked(before, op), EventOf(d, op))
  {
    if CheckPio(op.page, op.count) {
      ReadIsFlatRead(d, f, op.path, op.page, op.count);
    }
  }

  lemma TransferAnswers(d: Store, f: Flat, op: Op, before: seq<Op>)
    requires StoreInv(d, f) && op.Transfer? && CanDo(d, op) && Safe(d, op) && PendingAsStarted(d, before)
    ensures Answers(f, Asked(before, op), EventOf(d, op))
  {
    if d.users[op.u].ToRead? {
      TransferReadsFlat(d, f, op.u);
    }
  }

  /** A safe operation in a good state answers its request. */
  lemma OpAnswers(d: Store, f: Flat, op: Op, before: seq<Op>)
    requires StoreInv(d, f) && CanDo(d, op) && Safe(d, op) && PendingAsStarted(d, before)
    ensures Answers(f, Asked(before, op), EventOf(d, op))
  {
    if op.Read? {
      ReadAnswers(d, f, op, before);
    } else if op.Transfer? {
      TransferAnswers(d, f, op, before);
    } else if op.Discard? && CheckPio(op.page, op.count) {
      DiscardOp(d, op);
    } else if op.Write? && CheckPio(op.page, |op.data|) {
      WriteOp(d, op);
    }
  }

  /** The same from the end of the run on. */
  ghost predicate Answered(f: Flat, ops: seq<Op>, events: seq<Event>) {
    if ops == [] then events == []
    else
      var n := |ops| - 1;
      && |events| == |ops| && Answered(f, ops[..n], events[..n])
      && Answers(Replay(f, events[..n]), Asked(ops[..n], ops[n]), events[n])
  }

  lemma AnsweredExtends(f: Flat, ops: seq<Op>, before: seq<Event>, op: Op, e: Event)
    requires Answered(f, ops, before) && Answers(Replay(f, before), Asked(ops, op), e)
    ensures Answered(f, ops + [op], before + [e])
  {
    var all, events := ops + [op], before + [e];
    assert |before| == |ops|;
    assert all[..|ops|] == ops && events[..|ops|] == before;
  }

  lemma {:induction false} AnsweredAt(f: Flat, ops: seq<Op>, events: seq<Event>, i: nat)
    requires Answered(f, ops, events) && i < |ops|
    ensures |events| == |ops| && Answers(Replay(f, events[..i]), Asked(ops[..i], ops[i]), events[i])
  {
    var n := |ops| - 1;
    if i < n {
      AnsweredAt(f, ops[..n], events[..n], i);
      assert ops[..n][..i] == ops[..i] && events[..n][..i] == events[..i];
    }
  }

  lemma AnsweredAll(f: Flat, ops: seq<Op>, events: seq<Event>)
    requires Answered(f, ops, events)
    ensures AllAnswered(f, ops, events)
  {
    forall i | 0 <= i < |ops|
      ensures Answers(Replay(f, events[..i]), Asked(ops[..i], ops[i]), events[i])
    {
      AnsweredAt(f, ops, events, i);
    }
  }
}
