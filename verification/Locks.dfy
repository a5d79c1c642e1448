/**
 * The two spinlocks under any number of threads. A step of a thread is one compare-and-swap
 * or one store; a failed compare-and-swap leaves everything as it was and is tried again.
 */
module Locks {

  datatype Lock = MappingLock | QueueLock

  /**
   * What a thread does that matters to the locks: taking one, giving one back, and working on
   * what one of them protects, the mapping or the queue. One `Access` stands for all of it up
   * to the next branch, call or lock operation. `ReadInFlight` is the one place without a
   * lock: the worker reads the key of the entry it is writing back.
   */
  datatype Instr = Acquire(lock: Lock) | Release(lock: Lock) | Access(lock: Lock) | ReadInFlight

  // ---------------------------------------------------------------- what the functions do to the locks

  /** The lock operations of a function body, its branches and its calls; a `Return` per return statement. */
  datatype Code =
    | Return
    | Step(instr: Instr, rest: Code)
    | Either(left: Code, right: Code)
    | Call(callee: Code, rest: Code)

  /** Works on the queue, then goes on. */
  function Queue(rest: Code): Code {
    Step(Access(QueueLock), rest)
  }

  /** Works on the mapping, then goes on. */
  function Mapping(rest: Code): Code {
    Step(Access(MappingLock), rest)
  }

  const UNLOCK_QUEUE: Code := Step(Release(QueueLock), Return)
  const UNLOCK_MAPPING: Code := Step(Release(MappingLock), Return)

  /** Found in the loop, or not at all. */
  const CONTAINS_WORK: Code := Step(Acquire(QueueLock), Queue(Either(UNLOCK_QUEUE, UNLOCK_QUEUE)))

  /** Full; found in the loop; inserted. */
  const INSERT_WORK: Code :=
    Step(Acquire(QueueLock), Queue(Either(UNLOCK_QUEUE, Queue(Either(UNLOCK_QUEUE, Queue(UNLOCK_QUEUE))))))

  /** `remove_work` and `peak_work`: empty, or not. */
  const TAKE_WORK: Code := Step(Acquire(QueueLock), Queue(Either(UNLOCK_QUEUE, Queue(UNLOCK_QUEUE))))

  const IS_EMPTY: Code := Step(Acquire(QueueLock), Queue(UNLOCK_QUEUE))

  /** A critical section with one way out: the three complete functions, `remove_mapping`, `info_mapping`. */
  const PLAIN_SECTION: Code := Step(Acquire(MappingLock), Mapping(UNLOCK_MAPPING))

  /** `promotion_free_to_clean`, `demotion_clean_to_free` and `set_dirty_after_write`: an early return. */
  const TRY_SECTION: Code :=
    Step(Acquire(MappingLock), Mapping(Either(UNLOCK_MAPPING, Mapping(UNLOCK_MAPPING))))

  /** Nothing dirty; the head in flight; begun. */
  const WRITEBACK_DIRTY_TO_CLEAN: Code :=
    Step(Acquire(MappingLock),
         Mapping(Either(UNLOCK_MAPPING, Mapping(Either(UNLOCK_MAPPING, Mapping(UNLOCK_MAPPING))))))

  /** A hit, or a miss that is queued. */
  const LOOKUP_MAPPING: Code :=
    Step(Acquire(MappingLock),
         Mapping(Either(Mapping(UNLOCK_MAPPING), Mapping(Call(INSERT_WORK, UNLOCK_MAPPING)))))

  /** A hit; a miss that is queued already; one that finds nothing free and is queued; one that inserts. */
  const LOOKUP_MAPPING_WITH_INSERT: Code :=
    Step(Acquire(MappingLock),
         Mapping(Either(Mapping(UNLOCK_MAPPING),
                        Mapping(Call(CONTAINS_WORK,
                                     Either(UNLOCK_MAPPING,
                                            Mapping(Either(Call(INSERT_WORK, UNLOCK_MAPPING),
                                                           Mapping(UNLOCK_MAPPING)))))))))

  /** A transfer has been tried: the complete section, and the removal of the item. */
  const COMPLETE: Code := Call(PLAIN_SECTION, Call(TAKE_WORK, Return))

  /** Nothing queued; or promote, demote or write back, or nothing to be done, and remove the item. */
  const DO_MIGRATION_WORK: Code :=
    Call(TAKE_WORK,
         Either(Return,
                Call(TRY_SECTION,
                     Either(COMPLETE,
                            Call(TRY_SECTION,
                                 Either(COMPLETE,
                                        Call(WRITEBACK_DIRTY_TO_CLEAN,
                                             Either(Step(ReadInFlight, COMPLETE), Call(TAKE_WORK, Return)))))))))

  datatype Function =
    | ContainsWork | InsertWork | TakeWork | IsEmpty
    | PlainSection | TrySection | WritebackDirtyToClean
    | LookupMapping | LookupMappingWithInsert | DoMigrationWork

  function Body(f: Function): Code {
    match f
    case ContainsWork => CONTAINS_WORK
    case InsertWork => INSERT_WORK
    case TakeWork => TAKE_WORK
    case IsEmpty => IS_EMPTY
    case PlainSection => PLAIN_SECTION
    case TrySection => TRY_SECTION
    case WritebackDirtyToClean => WRITEBACK_DIRTY_TO_CLEAN
    case LookupMapping => LOOKUP_MAPPING
    case LookupMappingWithInsert => LOOKUP_MAPPING_WITH_INSERT
    case DoMigrationWork => DO_MIGRATION_WORK
  }

  /** `trace` is what one way through `c` does to the locks. */
  ghost predicate IsTrace(c: Code, trace: seq<Instr>) {
    match c
    case Return => trace == []
    case Step(i, rest) => trace != [] && trace[0] == i && IsTrace(rest, trace[1..])
    case Either(left, right) => IsTrace(left, trace) || IsTrace(right, trace)
    case Call(callee, rest) => exists n: nat :: n <= |trace| && IsTrace(callee, trace[..n]) && IsTrace(rest, trace[n..])
  }

  /**
   * A script that never takes a lock it has, never takes anything while it has the queue
   * lock, gives back only what it has, works on a structure only while it has its lock, and
   * leads from holding `held` to holding `final`.
   */
  predicate Ordered(held: set<Lock>, script: seq<Instr>, final: set<Lock>)
    decreases |script|
  {
    if script == [] then held == final
    else
      match script[0]
      case Acquire(l) => l !in held && QueueLock !in held && Ordered(held + {l}, script[1..], final)
      case Release(l) => l in held && Ordered(held - {l}, script[1..], final)
      case Access(l) => l in held && Ordered(held, script[1..], final)
      case ReadInFlight => Ordered(held, script[1..], final)
  }

  lemma {:induction false} OrderedConcat(h: set<Lock>, a: seq<Instr>, m: set<Lock>, b: seq<Instr>, f: set<Lock>)
    requires Ordered(h, a, m) && Ordered(m, b, f)
    ensures Ordered(h, a + b, f)
    decreases |a|
  {
    if a == [] {
      assert a + b == b;
    } else {
      assert (a + b)[1..] == a[1..] + b;
      match a[0]
      case Acquire(l) => OrderedConcat(h + {l}, a[1..], m, b, f);
      case Release(l) => OrderedConcat(h - {l}, a[1..], m, b, f);
      case _ => OrderedConcat(h, a[1..], m, b, f);
    }
  }

  /** The same for code: a call gives back what it takes. */
  predicate OrderedCode(held: set<Lock>, c: Code, final: set<Lock>)
    decreases c
  {
    match c
    case Return => held == final
    case Step(Acquire(l), rest) => l !in held && QueueLock !in held && OrderedCode(held + {l}, rest, final)
    case Step(Release(l), rest) => l in held && OrderedCode(held - {l}, rest, final)
    case Step(Access(l), rest) => l in held && OrderedCode(held, rest, final)
    case Step(ReadInFlight, rest) => OrderedCode(held, rest, final)
    case Either(left, right) => OrderedCode(held, left, final) && OrderedCode(held, right, final)
    case Call(callee, rest) => OrderedCode(held, callee, held) && OrderedCode(held, rest, final)
  }

  lemma {:induction false} TraceOfOrderedCode(held: set<Lock>, c: Code, final: set<Lock>, trace: seq<Instr>)
    requires OrderedCode(held, c, final) && IsTrace(c, trace)
    ensures Ordered(held, trace, final)
    decreases c
  {
    match c
    case Return =>
    case Step(Acquire(l), rest) => TraceOfOrderedCode(held + {l}, rest, final, trace[1..]);
    case Step(Release(l), rest) => TraceOfOrderedCode(held - {l}, rest, final, trace[1..]);
    case Step(_, rest) => TraceOfOrderedCode(held, rest, final, trace[1..]);
    case Either(left, right) =>
      if IsTrace(left, trace) {
        TraceOfOrderedCode(held, left, final, trace);
      } else {
        TraceOfOrderedCode(held, right, final, trace);
      }
    case Call(callee, rest) =>
      var n: nat :| n <= |trace| && IsTrace(callee, trace[..n]) && IsTrace(rest, trace[n..]);
      TraceOfOrderedCode(held, callee, held, trace[..n]);
      TraceOfOrderedCode(held, rest, final, trace[n..]);
      OrderedConcat(held, trace[..n], held, trace[n..], final);
      assert trace[..n] + trace[n..] == trace;
  }

  lemma QueueCodeIsOrdered(held: set<Lock>)
    requires QueueLock !in held
    ensures OrderedCode(held, CONTAINS_WORK, held) && OrderedCode(held, INSERT_WORK, held)
    ensures OrderedCode(held, TAKE_WORK, held) && OrderedCode(held, IS_EMPTY, held)
  {
    var both := held + {QueueLock};
    assert both - {QueueLock} == held;
    assert OrderedCode(both, UNLOCK_QUEUE, held);
    assert OrderedCode(both, Queue(UNLOCK_QUEUE), held);
    assert OrderedCode(both, Queue(Either(UNLOCK_QUEUE, Queue(UNLOCK_QUEUE))), held);
  }

  lemma SectionsAreOrdered()
    ensures OrderedCode({}, PLAIN_SECTION, {}) && OrderedCode({}, TRY_SECTION, {})
    ensures OrderedCode({}, WRITEBACK_DIRTY_TO_CLEAN, {})
  {
    var held := {} + {MappingLock};
    assert held - {MappingLock} == {};
    assert OrderedCode(held, UNLOCK_MAPPING, {});
    assert OrderedCode(held, Mapping(UNLOCK_MAPPING), {});
    assert OrderedCode(held, Mapping(Either(UNLOCK_MAPPING, Mapping(UNLOCK_MAPPING))), {});
  }

  lemma LookupsAreOrdered()
    ensures OrderedCode({}, LOOKUP_MAPPING, {}) && OrderedCode({}, LOOKUP_MAPPING_WITH_INSERT, {})
  {
    var held := {} + {MappingLock};
    QueueCodeIsOrdered(held);
    assert held - {MappingLock} == {};
    assert OrderedCode(held, UNLOCK_MAPPING, {});
    assert OrderedCode(held, Mapping(UNLOCK_MAPPING), {});
    var queue := Call(INSERT_WORK, UNLOCK_MAPPING);
    assert OrderedCode(held, queue, {});
    assert OrderedCode(held, Mapping(queue), {});
    var insert := Mapping(Either(queue, Mapping(UNLOCK_MAPPING)));
    assert OrderedCode(held, insert, {});
    assert OrderedCode(held, Call(CONTAINS_WORK, Either(UNLOCK_MAPPING, insert)), {});
    assert OrderedCode(held, Mapping(Call(CONTAINS_WORK, Either(UNLOCK_MAPPING, insert))), {});
  }

  lemma MigrationIsOrdered()
    ensures OrderedCode({}, DO_MIGRATION_WORK, {})
  {
    QueueCodeIsOrdered({});
    SectionsAreOrdered();
    assert OrderedCode({}, Call(TAKE_WORK, Return), {});
    assert OrderedCode({}, COMPLETE, {});
    var last := Call(WRITEBACK_DIRTY_TO_CLEAN, Either(Step(ReadInFlight, COMPLETE), Call(TAKE_WORK, Return)));
    assert OrderedCode({}, Step(ReadInFlight, COMPLETE), {});
    assert OrderedCode({}, last, {});
    assert OrderedCode({}, Call(TRY_SECTION, Either(COMPLETE, last)), {});
  }

  /**
   * On every path, every function releases what it took, takes the queue lock last, and works
   * on the mapping and on the queue only while it holds the lock of each.
   */
  lemma EveryPathIsOrdered(f: Function, trace: seq<Instr>)
    requires IsTrace(Body(f), trace)
    ensures Ordered({}, trace, {})
  {
    QueueCodeIsOrdered({});
    SectionsAreOrdered();
    LookupsAreOrdered();
    MigrationIsOrdered();
    TraceOfOrderedCode({}, Body(f), {}, trace);
  }

  // ---------------------------------------------------------------- the machine

  datatype Thread = Thread(held: set<Lock>, script: seq<Instr>)

  /** The two lock words and the threads. */
  datatype Machine = Machine(mapping: nat, queue: nat, threads: seq<Thread>) {
    function Word(l: Lock): nat {
      if l == MappingLock then mapping else queue
    }

    function SetWord(l: Lock, v: nat): Machine {
      if l == MappingLock then this.(mapping := v) else this.(queue := v)
    }
  }

  /** A thread enters a function, about to take the given path, or executes its next lock operation. */
  datatype Move = Start(t: nat, f: Function, path: seq<Instr>) | Go(t: nat)

  ghost predicate CanMove(s: Machine, m: Move) {
    && m.t < |s.threads|
    && (m.Start? <==> s.threads[m.t].script == [])
    && (m.Start? ==> IsTrace(Body(m.f), m.path))
  }

  /** The compare-exchange of `spinlock_lock`: the new word, and whether it was changed. */
  function CompareAndSwap(word: nat, compare: nat, exchange: nat): (nat, bool) {
    if word == compare then (exchange, true) else (word, false)
  }

  /**
   * One atomic step of thread `t`. A failed compare-exchange is tried again; the store of
   * `spinlock_unlock` is 0 whoever holds the lock.
   */
  function Execute(s: Machine, t: nat): Machine
    requires t < |s.threads| && s.threads[t].script != []
  {
    var th := s.threads[t];
    match th.script[0]
    case Acquire(l) =>
      var (word, ok) := CompareAndSwap(s.Word(l), 0, 1);
      s.SetWord(l, word)
        .(threads := if ok then s.threads[t := Thread(th.held + {l}, th.script[1..])] else s.threads)
    case Release(l) =>
      s.SetWord(l, 0).(threads := s.threads[t := Thread(th.held - {l}, th.script[1..])])
    case _ =>
      s.(threads := s.threads[t := Thread(th.held, th.script[1..])])
  }

  ghost function ApplyMove(s: Machine, m: Move): Machine
    requires CanMove(s, m)
  {
    match m
    case Start(t, _, path) => s.(threads := s.threads[t := s.threads[t].(script := path)])
    case Go(t) => Execute(s, t)
  }

  function InitMachine(n: nat): Machine {
    Machine(0, 0, seq(n, _ => Thread({}, [])))
  }

  ghost function RunMoves(s: Machine, moves: seq<Move>): (r: (bool, Machine)) {
    if moves == [] then (true, s)
    else
      var n := |moves| - 1;
      var (ok, u) := RunMoves(s, moves[..n]);
      if ok && CanMove(u, moves[n]) then (true, ApplyMove(u, moves[n])) else (false, u)
  }

  predicate Holds(s: Machine, t: nat, l: Lock) {
    t < |s.threads| && l in s.threads[t].held
  }

  /** The lock word says whether anybody holds the lock. */
  ghost predicate WordTells(s: Machine, l: Lock) {
    s.Word(l) <= 1 && (s.Word(l) == 1 <==> exists t: nat :: Holds(s, t, l))
  }

  ghost predicate LockInv(s: Machine) {
    && (forall t :: 0 <= t < |s.threads| ==> Ordered(s.threads[t].held, s.threads[t].script, {}))
    && (forall l: Lock :: WordTells(s, l))
    && (forall t: nat, u: nat, l: Lock :: Holds(s, t, l) && Holds(s, u, l) ==> t == u)
  }

  lemma StartKeepsInv(s: Machine, t: nat, f: Function, path: seq<Instr>)
    requires LockInv(s) && CanMove(s, Start(t, f, path))
    ensures LockInv(ApplyMove(s, Start(t, f, path)))
  {
    var s' := ApplyMove(s, Start(t, f, path));
    EveryPathIsOrdered(f, path);
    assert forall u: nat, l: Lock :: Holds(s', u, l) <==> Holds(s, u, l);
    forall l: Lock
      ensures WordTells(s', l)
    {
      assert WordTells(s, l);
    }
  }

  lemma AcquireKeepsInv(s: Machine, t: nat, l: Lock)
    requires LockInv(s) && t < |s.threads| && s.threads[t].script != []
    requires s.threads[t].script[0] == Acquire(l) && s.Word(l) == 0
    ensures LockInv(Execute(s, t))
  {
    assert WordTells(s, l);
    var s' := Execute(s, t);
    forall u: nat, x: Lock
      ensures Holds(s', u, x) <==> Holds(s, u, x) || (u == t && x == l)
    {
    }
    assert Holds(s', t, l);
    forall x: Lock
      ensures WordTells(s', x)
    {
      assert WordTells(s, x);
      if x != l && s.Word(x) == 1 {
        var u: nat :| Holds(s, u, x);
        assert Holds(s', u, x);
      }
    }
  }

  lemma ReleaseKeepsInv(s: Machine, t: nat, l: Lock)
    requires LockInv(s) && t < |s.threads| && s.threads[t].script != []
    requires s.threads[t].script[0] == Release(l)
    ensures LockInv(Execute(s, t)) && Holds(s, t, l)
  {
    var s' := Execute(s, t);
    assert Holds(s, t, l);
    forall u: nat, x: Lock
      ensures Holds(s', u, x) <==> Holds(s, u, x) && x != l
    {
      assert Holds(s, u, l) ==> u == t;
    }
    forall x: Lock
      ensures WordTells(s', x)
    {
      assert WordTells(s, x);
      if x != l && s.Word(x) == 1 {
        var u: nat :| Holds(s, u, x);
        assert Holds(s', u, x);
      }
    }
  }

  lemma WorkKeepsInv(s: Machine, t: nat)
    requires LockInv(s) && t < |s.threads| && s.threads[t].script != []
    requires s.threads[t].script[0].Access? || s.threads[t].script[0].ReadInFlight?
    ensures LockInv(Execute(s, t))
  {
    var s' := Execute(s, t);
    assert forall u: nat, l: Lock :: Holds(s', u, l) <==> Holds(s, u, l);
    forall l: Lock
      ensures WordTells(s', l)
    {
      assert WordTells(s, l);
    }
  }

  lemma MoveKeepsLockInv(s: Machine, m: Move)
    requires LockInv(s) && CanMove(s, m)
    ensures LockInv(ApplyMove(s, m)) && |ApplyMove(s, m).threads| == |s.threads|
  {
    match m
    case Start(t, f, path) => StartKeepsInv(s, t, f, path);
    case Go(t) =>
      match s.threads[t].script[0]
      case Acquire(l) => if s.Word(l) == 0 { AcquireKeepsInv(s, t, l); }
      case Release(l) => ReleaseKeepsInv(s, t, l);
      case _ => WorkKeepsInv(s, t);
  }

  lemma {:induction false} RunKeepsLockInv(s: Machine, moves: seq<Move>)
    requires LockInv(s) && RunMoves(s, moves).0
    ensures LockInv(RunMoves(s, moves).1) && |RunMoves(s, moves).1.threads| == |s.threads|
  {
    if moves != [] {
      var n := |moves| - 1;
      RunKeepsLockInv(s, moves[..n]);
      MoveKeepsLockInv(RunMoves(s, moves[..n]).1, moves[n]);
    }
  }

  lemma InitLockInv(n: nat)
    ensures LockInv(InitMachine(n))
  {
  }

  /** In every run of any number of threads a lock has at most one holder, and its word says if it has. */
  lemma MutualExclusion(n: nat, moves: seq<Move>, t: nat, u: nat, l: Lock)
    requires RunMoves(InitMachine(n), moves).0
    ensures var s := RunMoves(InitMachine(n), moves).1;
            && |s.threads| == n
            && (Holds(s, t, l) && Holds(s, u, l) ==> t == u)
            && (s.Word(l) == 0 ==> !Holds(s, t, l))
            && (t < n && s.threads[t].script == [] ==> !Holds(s, t, l))
  {
    InitLockInv(n);
    RunKeepsLockInv(InitMachine(n), moves);
    assert WordTells(RunMoves(InitMachine(n), moves).1, l);
  }

  /** The next thing thread `t` does is to work on what lock `l` protects. */
  predicate WorksOn(s: Machine, t: nat, l: Lock) {
    t < |s.threads| && s.threads[t].script != [] && s.threads[t].script[0] == Access(l)
  }

  /**
   * In every run a thread that works on the mapping or the queue holds the lock of it and
   * nobody else does; so no two threads ever work on the same one.
   */
  lemma AccessIsExclusive(n: nat, moves: seq<Move>, t: nat, u: nat, l: Lock)
    requires RunMoves(InitMachine(n), moves).0
    ensures var s := RunMoves(InitMachine(n), moves).1;
            WorksOn(s, t, l) ==>
              && Holds(s, t, l) && s.Word(l) == 1
              && (u != t ==> !Holds(s, u, l) && !WorksOn(s, u, l))
  {
    InitLockInv(n);
    RunKeepsLockInv(InitMachine(n), moves);
    var s := RunMoves(InitMachine(n), moves).1;
    assert WordTells(s, l);
    if WorksOn(s, t, l) {
      assert Ordered(s.threads[t].held, s.threads[t].script, {});
      assert Holds(s, t, l);
      if u < n {
        assert Ordered(s.threads[u].held, s.threads[u].script, {});
        assert WorksOn(s, u, l) ==> Holds(s, u, l);
      }
    }
  }

  // ---------------------------------------------------------------- sections in one piece

  /** The lock under which a function does all of its work; `do_migration_work` has no such lock. */
  function SectionLock(f: Function): (l: Lock)
    requires f != DoMigrationWork
  {
    if f.ContainsWork? || f.InsertWork? || f.TakeWork? || f.IsEmpty? then QueueLock else MappingLock
  }

  /** Code that neither takes nor gives back lock `l`. */
  predicate LeavesAlone(l: Lock, c: Code) {
    match c
    case Return => true
    case Step(i, rest) => i != Acquire(l) && i != Release(l) && LeavesAlone(l, rest)
    case Either(left, right) => LeavesAlone(l, left) && LeavesAlone(l, right)
    case Call(callee, rest) => LeavesAlone(l, callee) && LeavesAlone(l, rest)
  }

  /** Code that gives lock `l` back at the very end and does nothing else to it. */
  predicate EndsIn(l: Lock, c: Code) {
    match c
    case Return => false
    case Step(i, rest) => if i == Release(l) then rest == Return else i != Acquire(l) && EndsIn(l, rest)
    case Either(left, right) => EndsIn(l, left) && EndsIn(l, right)
    case Call(callee, rest) => LeavesAlone(l, callee) && EndsIn(l, rest)
  }

  lemma {:induction false} TraceLeavesAlone(l: Lock, c: Code, trace: seq<Instr>)
    requires LeavesAlone(l, c) && IsTrace(c, trace)
    ensures Acquire(l) !in trace && Release(l) !in trace
  {
    match c
    case Return =>
    case Step(i, rest) =>
      TraceLeavesAlone(l, rest, trace[1..]);
      assert trace == [i] + trace[1..];
    case Either(left, right) =>
      if IsTrace(left, trace) {
        TraceLeavesAlone(l, left, trace);
      } else {
        TraceLeavesAlone(l, right, trace);
      }
    case Call(callee, rest) =>
      var n: nat :| n <= |trace| && IsTrace(callee, trace[..n]) && IsTrace(rest, trace[n..]);
      TraceLeavesAlone(l, callee, trace[..n]);
      TraceLeavesAlone(l, rest, trace[n..]);
      assert trace == trace[..n] + trace[n..];
  }

  /** What comes before the last instruction. */
  ghost predicate EndsWithRelease(l: Lock, trace: seq<Instr>) {
    && trace != [] && trace[|trace| - 1] == Release(l)
    && Acquire(l) !in trace[..|trace| - 1] && Release(l) !in trace[..|trace| - 1]
  }

  lemma PrependKeepsEnd(l: Lock, before: seq<Instr>, trace: seq<Instr>)
    requires EndsWithRelease(l, trace) && Acquire(l) !in before && Release(l) !in before
    ensures EndsWithRelease(l, before + trace)
  {
    assert (before + trace)[..|before + trace| - 1] == before + trace[..|trace| - 1];
  }

  lemma {:induction false} TraceEndsIn(l: Lock, c: Code, trace: seq<Instr>)
    requires EndsIn(l, c) && IsTrace(c, trace)
    ensures EndsWithRelease(l, trace)
  {
    match c
    case Return =>
    case Step(i, rest) =>
      assert trace == [i] + trace[1..];
      if i == Release(l) {
        assert trace == [i];
      } else {
        TraceEndsIn(l, rest, trace[1..]);
        PrependKeepsEnd(l, [i], trace[1..]);
      }
    case Either(left, right) =>
      if IsTrace(left, trace) {
        TraceEndsIn(l, left, trace);
      } else {
        TraceEndsIn(l, right, trace);
      }
    case Call(callee, rest) =>
      var n: nat :| n <= |trace| && IsTrace(callee, trace[..n]) && IsTrace(rest, trace[n..]);
      TraceLeavesAlone(l, callee, trace[..n]);
      TraceEndsIn(l, rest, trace[n..]);
      PrependKeepsEnd(l, trace[..n], trace[n..]);
      assert trace == trace[..n] + trace[n..];
  }

  lemma BodiesAreSections(f: Function)
    requires f != DoMigrationWork
    ensures Body(f).Step? && Body(f).instr == Acquire(SectionLock(f))
    ensures Body(f).rest.Step? && Body(f).rest.instr == Access(SectionLock(f))
    ensures EndsIn(SectionLock(f), Body(f).rest)
  {
    assert EndsIn(QueueLock, UNLOCK_QUEUE) && EndsIn(MappingLock, UNLOCK_MAPPING);
    assert EndsIn(QueueLock, Queue(UNLOCK_QUEUE)) && EndsIn(MappingLock, Mapping(UNLOCK_MAPPING));
    assert EndsIn(QueueLock, Queue(Either(UNLOCK_QUEUE, Queue(UNLOCK_QUEUE))));
    assert EndsIn(MappingLock, Mapping(Either(UNLOCK_MAPPING, Mapping(UNLOCK_MAPPING))));
    QueueCodeLeavesMapping();
    var queue := Call(INSERT_WORK, UNLOCK_MAPPING);
    assert EndsIn(MappingLock, queue) && EndsIn(MappingLock, Mapping(queue));
    var insert := Mapping(Either(queue, Mapping(UNLOCK_MAPPING)));
    assert EndsIn(MappingLock, insert);
    assert EndsIn(MappingLock, Mapping(Call(CONTAINS_WORK, Either(UNLOCK_MAPPING, insert))));
  }

  lemma QueueCodeLeavesMapping()
    ensures LeavesAlone(MappingLock, INSERT_WORK) && LeavesAlone(MappingLock, CONTAINS_WORK)
  {
    assert LeavesAlone(MappingLock, UNLOCK_QUEUE);
    assert LeavesAlone(MappingLock, Queue(UNLOCK_QUEUE));
    assert LeavesAlone(MappingLock, Queue(Either(UNLOCK_QUEUE, Queue(UNLOCK_QUEUE))));
  }

  /**
   * A function other than `do_migration_work` is one critical section: on every path it takes
   * the lock of the structure it works on first, gives it back last, and holds it all the way
   * between. So it counts as one step.
   */
  lemma FunctionsAreSections(f: Function, trace: seq<Instr>)
    requires f != DoMigrationWork && IsTrace(Body(f), trace)
    ensures |trace| >= 3 && trace[0] == Acquire(SectionLock(f)) && trace[1] == Access(SectionLock(f))
    ensures EndsWithRelease(SectionLock(f), trace[1..])
  {
    BodiesAreSections(f);
    TraceEndsIn(SectionLock(f), Body(f).rest, trace[1..]);
  }

  // ---------------------------------------------------------------- progress

  /** The next operation of thread `t` goes through instead of spinning. */
  predicate GoesThrough(s: Machine, t: nat) {
    && t < |s.threads| && s.threads[t].script != []
    && match s.threads[t].script[0]
       case Acquire(l) => s.Word(l) == 0
       case _ => true
  }

  lemma HolderGoesThrough(s: Machine, t: nat, l: Lock)
    requires LockInv(s) && Holds(s, t, l)
    requires l == QueueLock || s.Word(QueueLock) == 0
    ensures GoesThrough(s, t)
  {
    var th := s.threads[t];
    assert th.script != [];
    if th.script[0].Acquire? {
      assert l == MappingLock && th.script[0].lock != MappingLock;
    }
  }

  /** Whatever has been taken so far, some thread inside a function can take its next step. */
  lemma SomeoneGoesThrough(s: Machine, busy: nat) returns (t: nat)
    requires LockInv(s) && busy < |s.threads| && s.threads[busy].script != []
    ensures GoesThrough(s, t)
  {
    assert WordTells(s, QueueLock) && WordTells(s, MappingLock);
    if s.Word(QueueLock) == 1 {
      t :| Holds(s, t, QueueLock);
      HolderGoesThrough(s, t, QueueLock);
    } else if s.Word(MappingLock) == 1 {
      t :| Holds(s, t, MappingLock);
      HolderGoesThrough(s, t, MappingLock);
    } else {
      t := busy;
      assert forall l: Lock :: s.Word(l) == 0;
    }
  }

  /** No reachable state is deadlocked. */
  lemma NoDeadlock(n: nat, moves: seq<Move>)
    requires RunMoves(InitMachine(n), moves).0
    ensures var s := RunMoves(InitMachine(n), moves).1;
            |s.threads| == n
            && ((exists t :: 0 <= t < n && s.threads[t].script != []) ==> exists t: nat :: GoesThrough(s, t))
  {
    InitLockInv(n);
    RunKeepsLockInv(InitMachine(n), moves);
    var s := RunMoves(InitMachine(n), moves).1;
    if busy: nat :| busy < n && s.threads[busy].script != [] {
      var t := SomeoneGoesThrough(s, busy);
    }
  }

  /** What is still to be done by the threads inside a function. */
  function Remaining(threads: seq<Thread>): nat {
    if threads == [] then 0 else |threads[0].script| + Remaining(threads[1..])
  }

  lemma {:induction false} RemainingDrops(threads: seq<Thread>, t: nat, th: Thread)
    requires t < |threads| && |th.script| + 1 == |threads[t].script|
    ensures Remaining(threads[t := th]) + 1 == Remaining(threads)
  {
    if t == 0 {
      assert threads[t := th][1..] == threads[1..];
    } else {
      assert threads[t := th][1..] == threads[1..][t - 1 := th];
      RemainingDrops(threads[1..], t - 1, th);
    }
  }

  lemma {:induction false} BusyIfRemaining(threads: seq<Thread>) returns (t: nat)
    requires Remaining(threads) > 0
    ensures t < |threads| && threads[t].script != []
  {
    if threads[0].script != [] {
      t := 0;
    } else {
      t := BusyIfRemaining(threads[1..]);
      t := t + 1;
    }
  }

  lemma {:induction false} IdleIfNothingRemains(threads: seq<Thread>, t: nat)
    requires Remaining(threads) == 0 && t < |threads|
    ensures threads[t].script == []
  {
    if t > 0 {
      IdleIfNothingRemains(threads[1..], t - 1);
    }
  }

  lemma AppendMove(s: Machine, moves: seq<Move>, m: Move)
    requires RunMoves(s, moves).0 && CanMove(RunMoves(s, moves).1, m)
    ensures RunMoves(s, moves + [m]) == (true, ApplyMove(RunMoves(s, moves).1, m))
  {
    assert (moves + [m])[..|moves|] == moves;
  }

  lemma SomeoneProgresses(s: Machine) returns (t: nat)
    requires LockInv(s) && Remaining(s.threads) > 0
    ensures CanMove(s, Go(t)) && Remaining(ApplyMove(s, Go(t)).threads) + 1 == Remaining(s.threads)
  {
    var busy := BusyIfRemaining(s.threads);
    t := SomeoneGoesThrough(s, busy);
    var s' := ApplyMove(s, Go(t));
    RemainingDrops(s.threads, t, s'.threads[t]);
    assert s'.threads == s.threads[t := s'.threads[t]];
  }

  /**
   * From every reachable state all threads can leave their functions, with both locks free,
   * in exactly as many steps as there are lock operations left.
   */
  lemma {:induction false} EveryoneCanLeave(n: nat, moves: seq<Move>) returns (rest: seq<Move>)
    requires RunMoves(InitMachine(n), moves).0
    ensures |rest| == Remaining(RunMoves(InitMachine(n), moves).1.threads)
    ensures RunMoves(InitMachine(n), moves + rest).0
    ensures AllOut(RunMoves(InitMachine(n), moves + rest).1)
    decreases Remaining(RunMoves(InitMachine(n), moves).1.threads)
  {
    InitLockInv(n);
    RunKeepsLockInv(InitMachine(n), moves);
    var s := RunMoves(InitMachine(n), moves).1;
    if Remaining(s.threads) == 0 {
      rest := [];
      assert moves + rest == moves;
      AllIdle(s);
    } else {
      var t := OneLeaves(n, moves);
      var tail := EveryoneCanLeave(n, moves + [Go(t)]);
      rest := [Go(t)] + tail;
      assert moves + rest == moves + [Go(t)] + tail;
    }
  }

  /** A run can go on with one step less to do. */
  lemma OneLeaves(n: nat, moves: seq<Move>) returns (t: nat)
    requires RunMoves(InitMachine(n), moves).0 && Remaining(RunMoves(InitMachine(n), moves).1.threads) > 0
    ensures RunMoves(InitMachine(n), moves + [Go(t)]).0
    ensures Remaining(RunMoves(InitMachine(n), moves + [Go(t)]).1.threads) + 1 ==
            Remaining(RunMoves(InitMachine(n), moves).1.threads)
  {
    InitLockInv(n);
    RunKeepsLockInv(InitMachine(n), moves);
    t := SomeoneProgresses(RunMoves(InitMachine(n), moves).1);
    AppendMove(InitMachine(n), moves, Go(t));
  }

  /** Nobody is inside a function, nobody holds a lock, and both words say so. */
  ghost predicate AllOut(s: Machine) {
    && (forall t :: 0 <= t < |s.threads| ==> s.threads[t] == Thread({}, []))
    && (forall l: Lock :: s.Word(l) == 0)
  }

  lemma AllIdle(s: Machine)
    requires LockInv(s) && Remaining(s.threads) == 0
    ensures AllOut(s)
  {
    forall t | 0 <= t < |s.threads|
      ensures s.threads[t] == Thread({}, [])
    {
      IdleIfNothingRemains(s.threads, t);
    }
    forall l: Lock
      ensures s.Word(l) == 0
    {
      assert WordTells(s, l);
    }
  }

  // ---------------------------------------------------------------- the lock words in memory

  class Spinlock {
    var locked: nat

    /** `spinlock_init`. */
    constructor ()
      ensures locked == 0
    {
      locked := 0;
    }

    /** The strong compare-exchange. */
    method CompareExchange(compare: nat, exchange: nat) returns (ok: bool)
      modifies this
      ensures (locked, ok) == CompareAndSwap(old(locked), compare, exchange)
    {
      ok := locked == compare;
      if ok {
        locked := exchange;
      }
    }

    method Unlock()
      modifies this
      ensures locked == 0
    {
      locked := 0;
    }

    /**
     * The loop of `spinlock_lock` while the other threads leave `seen[i]` in the word before
     * turn `i`: it takes the lock at the first turn that finds it free.
     */
    method Lock(seen: seq<nat>) returns (turns: nat)
      requires 0 in seen
      modifies this
      ensures 1 <= turns <= |seen| && seen[turns - 1] == 0 && 0 !in seen[..turns - 1]
      ensures locked == 1
    {
      assert seen[..|seen|] == seen;
      turns := 0;
      var ok := false;
      while !ok
        invariant turns <= |seen|
        invariant if ok then turns >= 1 && seen[turns - 1] == 0 && 0 !in seen[..turns - 1] && locked == 1
                  else 0 !in seen[..turns]
        decreases |seen| - turns, !ok
      {
        locked := seen[turns];
        ok := CompareExchange(0, 1);
        assert seen[..turns + 1] == seen[..turns] + [seen[turns]];
        turns := turns + 1;
      }
    }
  }

  /** The threads over the lock words in memory. */
  class Process {
    const mappingLock: Spinlock
    const queueLock: Spinlock
    var threads: seq<Thread>

    constructor (n: nat)
      ensures fresh(mappingLock) && fresh(queueLock) && mappingLock != queueLock && View() == InitMachine(n)
    {
      mappingLock := new Spinlock();
      queueLock := new Spinlock();
      threads := seq(n, _ => Thread({}, []));
    }

    function View(): Machine
      reads this, mappingLock, queueLock
    {
      Machine(mappingLock.locked, queueLock.locked, threads)
    }

    function LockOf(l: Lock): Spinlock {
      if l == MappingLock then mappingLock else queueLock
    }

    /**
     * A turn of `spinlock_lock`, or `spinlock_unlock`, on the word itself is the step of the
     * machine; other work leaves both words alone.
     */
    method Turn(t: nat)
      requires mappingLock != queueLock && t < |threads| && threads[t].script != []
      modifies this, mappingLock, queueLock
      ensures View() == Execute(old(View()), t)
    {
      var th := threads[t];
      match th.script[0]
      case Acquire(l) =>
        var ok := LockOf(l).CompareExchange(0, 1);
        if ok {
          threads := threads[t := Thread(th.held + {l}, th.script[1..])];
        }
      case Release(l) =>
        LockOf(l).Unlock();
        threads := threads[t := Thread(th.held - {l}, th.script[1..])];
      case _ =>
        threads := threads[t := Thread(th.held, th.script[1..])];
    }
  }
}
