/** Cache plus origin behave as one flat page store over every run that respects `Safe`. */
module StoreRefinement {
  import opened CacheTypes
  import opened CacheStore
  import opened FlatStore
  import opened Protocol
  import opened Requests
  import opened RequestSteps
  import opened WorkerSteps

  lemma OpKeepsInv(d: Store, f: Flat, op: Op, g: Flat)
    requires StoreInv(d, f) && CanDo(d, op) && Safe(d, op)
    requires g == FlatApply(f, EventOf(d, op))
    ensures StoreInv(Do(d, op), g)
  {
    if IsRequest(op) {
      RequestStep(d, f, op);
    } else {
      WorkerShowsNothing(d, op);
      assert g == f;
      WorkerStep(d, f, op);
    }
  }

  // ---------------------------------------------------------------- runs

  /** A store over fresh mapping memory, any SSD contents, and an origin that holds `f`. */
  ghost predicate InitialStore(d: Store, f: Flat) {
    && (exists n: nat, buckets: nat, capacity: nat ::
          2 <= buckets && 1 <= capacity && d.sys == Init(n, buckets, capacity))
    && d.io == NotStarted && |d.ssd| == |d.sys.m.cells| && d.unwritten == {}
    && (forall u :: 0 <= u < |d.users| ==> d.users[u] == Nothing)
    && forall k: Key :: d.origin[k] == FlatBlock(f, k)
  }

  /**
   * The state after `ops` and what the run has shown, if every operation could be done in
   * turn and the rules allow it.
   */
  ghost function Run(d: Store, ops: seq<Op>, rules: Rules): Option<(Store, seq<Event>)> {
    if ops == [] then Some((d, []))
    else
      var n := |ops| - 1;
      match Run(d, ops[..n], rules)
      case None => None
      case Some((e, events)) =>
        if StoreSane(e) && CanDo(e, ops[n]) && Allowed(e, ops[n], rules)
        then Some((Do(e, ops[n]), events + [EventOf(e, ops[n])])) else None
  }

  lemma InitialStoreInv(d: Store, f: Flat)
    requires InitialStore(d, f)
    ensures StoreInv(d, f)
  {
    var n: nat, buckets: nat, capacity: nat :|
      2 <= buckets && 1 <= capacity && d.sys == Init(n, buckets, capacity);
    InitProtocolInv(n, buckets, capacity);
  }

  /** Every read of a trace returned what the flat store held at that point. */
  ghost predicate ReadsAreFlat(f: Flat, events: seq<Event>) {
    forall i :: 0 <= i < |events| && events[i].DidRead? ==>
                  events[i].result ==
                  FlatRead(Replay(f, events[..i]), events[i].path, events[i].page, |events[i].result|)
  }

  lemma ReadsAreFlatExtends(f: Flat, before: seq<Event>, e: Event)
    requires ReadsAreFlat(f, before)
    requires e.DidRead? ==> e.result == FlatRead(Replay(f, before), e.path, e.page, |e.result|)
    ensures ReadsAreFlat(f, before + [e])
  {
    var events := before + [e];
    assert events[..|before|] == before;
    assert forall i :: 0 <= i < |before| ==> events[i] == before[i] && events[..i] == before[..i];
  }

  /** The last operation of a run. */
  lemma RunSplits(d: Store, ops: seq<Op>, rules: Rules, e: Store, events: seq<Event>)
    returns (e0: Store, before: seq<Event>)
    requires ops != [] && Run(d, ops, rules) == Some((e, events))
    ensures var n := |ops| - 1;
            && Run(d, ops[..n], rules) == Some((e0, before))
            && StoreSane(e0) && CanDo(e0, ops[n]) && Allowed(e0, ops[n], rules)
            && e == Do(e0, ops[n]) && events == before + [EventOf(e0, ops[n])]
  {
    var r := Run(d, ops[..|ops| - 1], rules).value;
    e0, before := r.0, r.1;
  }

  /** The run so far has led to a picture of its replay, and its reads were current. */
  ghost predicate GoodSoFar(d: Store, f: Flat, events: seq<Event>) {
    StoreInv(d, Replay(f, events)) && ReadsAreFlat(f, events)
  }

  lemma {:induction false} RunStaysGood(d: Store, f: Flat, ops: seq<Op>, rules: Rules, e: Store, events: seq<Event>)
    requires GoodSoFar(d, f, []) && Run(d, ops, rules) == Some((e, events)) && !rules.AsWritten?
    ensures |events| == |ops| && GoodSoFar(e, f, events)
  {
    if ops != [] {
      var n := |ops| - 1;
      var e0, before := RunSplits(d, ops, rules, e, events);
      RunStaysGood(d, f, ops[..n], rules, e0, before);
      RunGrows(e0, f, before, ops[n], rules);
    }
  }

  /** From any good state a run that minds its steps leads to the replay of what it shows. */
  lemma RunFromGoodState(d: Store, f: Flat, ops: seq<Op>, rules: Rules, e: Store, events: seq<Event>)
    requires StoreInv(d, f) && Run(d, ops, rules) == Some((e, events)) && !rules.AsWritten?
    ensures |events| == |ops| && StoreInv(e, Replay(f, events)) && ReadsAreFlat(f, events)
  {
    RunStaysGood(d, f, ops, rules, e, events);
  }

  /** The run so far has been answered, and what users are about to do is what they have started. */
  ghost predicate AnswersSoFar(d: Store, f: Flat, ops: seq<Op>, events: seq<Event>) {
    Answered(f, ops, events) && PendingAsStarted(d, ops)
  }

  /** From a good state with idle users every operation gives the flat store's answer. */
  lemma {:induction false} RunAnswers(d: Store, f: Flat, ops: seq<Op>, rules: Rules, e: Store, events: seq<Event>)
    requires StoreInv(d, f) && Run(d, ops, rules) == Some((e, events)) && !rules.AsWritten?
    requires AnswersSoFar(d, f, [], [])
    ensures AnswersSoFar(e, f, ops, events)
  {
    if ops != [] {
      var e0, before := RunSplits(d, ops, rules, e, events);
      RunAnswers(d, f, ops[..|ops| - 1], rules, e0, before);
      LastAnswer(d, f, ops, rules, e0, before);
    }
  }

  lemma LastAnswer(d: Store, f: Flat, ops: seq<Op>, rules: Rules, e: Store, events: seq<Event>)
    requires ops != [] && StoreInv(d, f) && Run(d, ops[..|ops| - 1], rules) == Some((e, events)) && !rules.AsWritten?
    requires AnswersSoFar(e, f, ops[..|ops| - 1], events)
    requires StoreSane(e) && CanDo(e, ops[|ops| - 1]) && Allowed(e, ops[|ops| - 1], rules)
    ensures AnswersSoFar(Do(e, ops[|ops| - 1]), f, ops, events + [EventOf(e, ops[|ops| - 1])])
  {
    NextIsSafe(d, f, ops[..|ops| - 1], rules, e, events, ops[|ops| - 1]);
    OneMoreAnswer(e, f, ops, events);
  }

  /** What a run leads to is good, and its next operation safe. */
  lemma NextIsSafe(d: Store, f: Flat, ops: seq<Op>, rules: Rules, e: Store, events: seq<Event>, op: Op)
    requires StoreInv(d, f) && Run(d, ops, rules) == Some((e, events)) && !rules.AsWritten?
    requires StoreSane(e) && CanDo(e, op) && Allowed(e, op, rules)
    ensures StoreInv(e, Replay(f, events)) && Safe(e, op)
  {
    RunFromGoodState(d, f, ops, rules, e, events);
    AllowedIsSafe(e, op, rules);
  }

  lemma OneMoreAnswer(d: Store, f: Flat, ops: seq<Op>, before: seq<Event>)
    requires ops != [] && StoreInv(d, Replay(f, before)) && AnswersSoFar(d, f, ops[..|ops| - 1], before)
    requires CanDo(d, ops[|ops| - 1]) && Safe(d, ops[|ops| - 1])
    ensures AnswersSoFar(Do(d, ops[|ops| - 1]), f, ops, before + [EventOf(d, ops[|ops| - 1])])
  {
    var op := ops[|ops| - 1];
    assert ops == ops[..|ops| - 1] + [op];
    OpAnswers(d, Replay(f, before), op, ops[..|ops| - 1]);
    AnsweredExtends(f, ops[..|ops| - 1], before, op, EventOf(d, op));
    PendingStays(d, ops[..|ops| - 1], op);
  }

  /**
   * The main theorem, for the design the code is meant to have: demotions trim the block
   * of their victim. After any run the state represents the flat store that results from
   * replaying the run's writes and discards, and every operation along the way gave the
   * answer the flat store gives at that point to the request it was for: a read returned
   * all its pages as they were held then, a write was taken with all of its.
   */
  lemma RunRefinesFlatStore(d: Store, f: Flat, ops: seq<Op>, e: Store, events: seq<Event>)
    requires InitialStore(d, f) && Run(d, ops, OwnTrims(false)) == Some((e, events))
    ensures StoreInv(e, Replay(f, events)) && ReadsAreFlat(f, events) && AllAnswered(f, ops, events)
  {
    InitialStoreInv(d, f);
    RunFromGoodState(d, f, ops, OwnTrims(false), e, events);
    RunAnswers(d, f, ops, OwnTrims(false), e, events);
    AnsweredAll(f, ops, events);
  }

  /** The same for the code as written, whose demotions trim block 0, while that is harmless. */
  lemma RunAsWrittenRefinesFlatStore(d: Store, f: Flat, ops: seq<Op>, e: Store, events: seq<Event>)
    requires InitialStore(d, f) && Run(d, ops, Careful(false)) == Some((e, events))
    ensures StoreInv(e, Replay(f, events)) && ReadsAreFlat(f, events) && AllAnswered(f, ops, events)
  {
    InitialStoreInv(d, f);
    RunFromGoodState(d, f, ops, Careful(false), e, events);
    RunAnswers(d, f, ops, Careful(false), e, events);
    AnsweredAll(f, ops, events);
  }

  /** A trim of the victim's own block is safe. */
  lemma AllowedIsSafe(d: Store, op: Op, rules: Rules)
    requires StoreSane(d) && CanDo(d, op) && Allowed(d, op, rules) && !rules.AsWritten?
    ensures Safe(d, op)
  {
  }

  /** One more operation at the end of a run. */
  lemma RunGrows(d: Store, f: Flat, before: seq<Event>, op: Op, rules: Rules)
    requires GoodSoFar(d, f, before) && StoreSane(d) && CanDo(d, op) && Allowed(d, op, rules) && !rules.AsWritten?
    ensures GoodSoFar(Do(d, op), f, before + [EventOf(d, op)])
  {
    var g := Replay(f, before);
    AllowedIsSafe(d, op, rules);
    OpKeepsInv(d, g, op, FlatApply(g, EventOf(d, op)));
    OpReadsFlat(d, g, op);
    ReadsAreFlatExtends(f, before, EventOf(d, op));
    ReplayOneMore(f, before, EventOf(d, op));
  }

  lemma OpReadsFlat(d: Store, f: Flat, op: Op)
    requires StoreInv(d, f) && CanDo(d, op) && Safe(d, op)
    ensures var ev := EventOf(d, op);
            ev.DidRead? ==> ev.result == FlatRead(f, ev.path, ev.page, |ev.result|)
  {
    if op.Read? && CheckPio(op.page, op.count) {
      ReadIsFlatRead(d, f, op.path, op.page, op.count);
    } else if op.Transfer? && d.users[op.u].ToRead? {
      TransferReadsFlat(d, f, op.u);
    }
  }

  /** Read your writes: a read returns, page by page, the latest write to that page. */
  lemma ReadReturnsLatestWrite(d: Store, f: Flat, ops: seq<Op>, rules: Rules, e: Store, events: seq<Event>,
                               i: nat, j: nat, p: Page)
    requires InitialStore(d, f) && Run(d, ops, rules) == Some((e, events)) && !rules.AsWritten?
    requires j < i < |events| && events[i].DidRead? && events[j].DidWrite?
    requires Covers(events[i].path, events[i].page, |events[i].result|, p) && Touches(events[j], p)
    requires forall x :: j < x < i ==> !Touches(events[x], p)
    ensures events[i].result[p.index - events[i].page] == events[j].data[p.index - events[j].page]
  {
    InitialStoreInv(d, f);
    RunFromGoodState(d, f, ops, rules, e, events);
    FlatReadReturnsLatestWrite(f, events, i, j, p);
  }
}
