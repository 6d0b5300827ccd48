/**
 The mutexes of the broker: why its threads cannot deadlock, and why they do not race. A thread runs
 handle_request any number of times and then its disconnect cleanup, as a sequence of lock, unlock and I/O steps
 and uses of the data that a mutex guards: topics with replication progress, consumer groups, latency samples.
 An I/O call may take any time, but it returns.
 */
module Locks {
  import opened Types

  datatype Mutex = GROUPS | TOPICS | LATENCY

  datatype Op = Lock(m: Mutex) | Unlock(m: Mutex) | Use(m: Mutex) | Io

  // ----- What each call does with the mutexes -----

  // One partition in synchronize_follower: the query, the lookup of missing records, and the records sent.
  datatype SyncedPartition = SyncedPartition(lookup: bool, io: nat)

  // The ways through handle_request, and a cleanup step.
  datatype Call =
    | Lockless                                                        // PING, INVALID, refused by role
    | ReadMetrics                                                     // METRICS
    | OnTopics(io: nat)                                               // FETCH, REPLICATE, REPLICATION_PROGRESS
    | Produce(sync: Option<seq<SyncedPartition>>, io: nat, threw: bool) // PRODUCE
    | OnGroups                                                        // JOIN, LEAVE, GROUP_POLL
    | CommitOffset(looksUpTopic: bool)                                // COMMIT
    | RemoveConsumer                                                  // remove_consumer_from_group

  function Repeat(io: nat): seq<Op> {
    seq(io, _ => Io)
  }

  // A guarded section: the data of the mutex is used before and after what else is done inside.
  function Holding(m: Mutex, inside: seq<Op>): seq<Op> {
    [Lock(m), Use(m)] + inside + [Use(m), Unlock(m)]
  }

  function SyncPartitions(partitions: seq<SyncedPartition>): seq<Op> {
    if partitions == [] then [] else
    var last := partitions[|partitions| - 1];
    SyncPartitions(partitions[..|partitions| - 1]) + ([Io] + (if last.lookup then Holding(TOPICS, []) else []) + Repeat(last.io))
  }

  // record_request, which a request that throws does not reach.
  const RECORD: seq<Op> := Holding(LATENCY, [])

  function Ops(call: Call): seq<Op> {
    match call
    case Lockless => RECORD
    case ReadMetrics => Holding(LATENCY, []) + RECORD
    case OnTopics(io) => Holding(TOPICS, Repeat(io)) + RECORD
    case Produce(sync, io, threw) =>
      (match sync case Some(partitions) => Holding(TOPICS, []) + SyncPartitions(partitions) case None => [])
      + Holding(TOPICS, Repeat(io)) + (if threw then [] else RECORD)
    case OnGroups => Holding(GROUPS, []) + RECORD
    case CommitOffset(looksUpTopic) => Holding(GROUPS, if looksUpTopic then Holding(TOPICS, []) else []) + RECORD
    case RemoveConsumer => Holding(GROUPS, [])
  }

  function AllOps(calls: seq<Call>): seq<Op> {
    if calls == [] then [] else AllOps(calls[..|calls| - 1]) + Ops(calls[|calls| - 1])
  }

  // ----- The order of the mutexes -----

  function Rank(m: Mutex): nat {
    match m case GROUPS => 0 case TOPICS => 1 case LATENCY => 2
  }

  ghost predicate Above(m: Mutex, held: set<Mutex>) {
    forall h | h in held :: Rank(h) < Rank(m)
  }

  // What is held after ops, if they lock only upwards, and unlock and use only what they hold.
  ghost function Walk(ops: seq<Op>, held: set<Mutex>): Option<set<Mutex>> {
    if ops == [] then Some(held)
    else match ops[0]
      case Io => Walk(ops[1..], held)
      case Lock(m) => if Above(m, held) then Walk(ops[1..], held + {m}) else None
      case Unlock(m) => if m in held then Walk(ops[1..], held - {m}) else None
      case Use(m) => if m in held then Walk(ops[1..], held) else None
  }

  lemma {:induction false} WalkConcat(a: seq<Op>, b: seq<Op>, held: set<Mutex>)
    requires Walk(a, held).Some?
    ensures Walk(a + b, held) == Walk(b, Walk(a, held).value)
  {
    if a == [] {
      assert a + b == b;
    } else {
      assert (a + b)[1..] == a[1..] + b;
      match a[0]
      case Io => WalkConcat(a[1..], b, held);
      case Lock(m) => WalkConcat(a[1..], b, held + {m});
      case Unlock(m) => WalkConcat(a[1..], b, held - {m});
      case Use(_) => WalkConcat(a[1..], b, held);
    }
  }

  lemma {:induction false} WalkIo(io: nat, held: set<Mutex>)
    ensures Walk(Repeat(io), held) == Some(held)
  {
    if io > 0 {
      assert Repeat(io)[1..] == Repeat(io - 1);
      WalkIo(io - 1, held);
    }
  }

  lemma WalkHolding(m: Mutex, inside: seq<Op>, held: set<Mutex>)
    requires Above(m, held) && Walk(inside, held + {m}) == Some(held + {m})
    ensures Walk(Holding(m, inside), held) == Some(held)
  {
    var last: seq<Op> := [Use(m), Unlock(m)];
    WalkConcat(inside, last, held + {m});
    assert last[1..] == [Unlock(m)] && last[1..][1..] == [];
    assert held + {m} - {m} == held;
    assert Walk(last[1..], held + {m}) == Walk(last[1..][1..], held);
    var all := Holding(m, inside);
    assert all[1..] == [Use(m)] + (inside + last);
    assert all[1..][1..] == inside + last;
  }

  lemma {:induction false} WalkSync(partitions: seq<SyncedPartition>)
    ensures Walk(SyncPartitions(partitions), {}) == Some({})
  {
    if partitions != [] {
      var front, last := partitions[..|partitions| - 1], partitions[|partitions| - 1];
      WalkSync(front);
      var lookup := if last.lookup then Holding(TOPICS, []) else [];
      WalkHolding(TOPICS, [], {});
      WalkIo(last.io, {});
      WalkConcat(lookup, Repeat(last.io), {});
      assert [Io] + lookup + Repeat(last.io) == [Io] + (lookup + Repeat(last.io));
      assert ([Io] + (lookup + Repeat(last.io)))[1..] == lookup + Repeat(last.io);
      WalkConcat(SyncPartitions(front), [Io] + lookup + Repeat(last.io), {});
    }
  }

  lemma WalkBoth(a: seq<Op>, b: seq<Op>)
    requires Walk(a, {}) == Some({}) && Walk(b, {}) == Some({})
    ensures Walk(a + b, {}) == Some({})
  {
    WalkConcat(a, b, {});
  }

  /** Every way through handle_request and the cleanup locks in the order GROUPS, TOPICS, LATENCY, and releases everything. */
  lemma CallIsOrderly(call: Call)
    ensures Walk(Ops(call), {}) == Some({})
  {
    hide Walk, Holding;
    WalkNothing({GROUPS});
    WalkNothing({TOPICS});
    WalkNothing({LATENCY});
    WalkNothing({});
    assert {} + {GROUPS} == {GROUPS} && {} + {TOPICS} == {TOPICS} && {} + {LATENCY} == {LATENCY};
    WalkHolding(LATENCY, [], {});
    match call
    case Lockless =>
    case ReadMetrics => WalkBoth(RECORD, RECORD);
    case OnTopics(io) =>
      WalkIo(io, {TOPICS});
      WalkHolding(TOPICS, Repeat(io), {});
      WalkBoth(Holding(TOPICS, Repeat(io)), RECORD);
    case Produce(sync, io, threw) =>
      var first := match sync case Some(partitions) => Holding(TOPICS, []) + SyncPartitions(partitions) case None => [];
      if sync.Some? {
        WalkSync(sync.value);
        WalkHolding(TOPICS, [], {});
        WalkBoth(Holding(TOPICS, []), SyncPartitions(sync.value));
      }
      WalkIo(io, {TOPICS});
      WalkHolding(TOPICS, Repeat(io), {});
      WalkBoth(first, Holding(TOPICS, Repeat(io)));
      WalkBoth(first + Holding(TOPICS, Repeat(io)), if threw then [] else RECORD);
    case OnGroups =>
      WalkHolding(GROUPS, [], {});
      WalkBoth(Holding(GROUPS, []), RECORD);
    case CommitOffset(looksUpTopic) =>
      var inside := if looksUpTopic then Holding(TOPICS, []) else [];
      WalkNothing({GROUPS} + {TOPICS});
      WalkHolding(TOPICS, [], {GROUPS});
      WalkHolding(GROUPS, inside, {});
      WalkBoth(Holding(GROUPS, inside), RECORD);
    case RemoveConsumer => WalkHolding(GROUPS, [], {});
  }

  lemma WalkNothing(held: set<Mutex>)
    ensures Walk([], held) == Some(held)
  {
  }

  lemma {:induction false} CallsAreOrderly(calls: seq<Call>)
    ensures Walk(AllOps(calls), {}) == Some({})
  {
    hide Ops;
    if calls != [] {
      CallsAreOrderly(calls[..|calls| - 1]);
      CallIsOrderly(calls[|calls| - 1]);
      WalkBoth(AllOps(calls[..|calls| - 1]), Ops(calls[|calls| - 1]));
    }
  }

  // ----- Threads -----

  datatype Thread = Thread(rest: seq<Op>, held: set<Mutex>)

  // A new thread with its calls, or the next operation of a thread.
  datatype Step = Spawn(calls: seq<Call>) | Go(k: nat)

  ghost predicate IsFree(threads: seq<Thread>, m: Mutex) {
    forall t | t in threads :: m !in t.held
  }

  ghost predicate Enabled(threads: seq<Thread>, k: nat) {
    && k < |threads| && threads[k].rest != []
    && (threads[k].rest[0].Lock? ==> IsFree(threads, threads[k].rest[0].m))
  }

  function Went(t: Thread): Thread
    requires t.rest != []
  {
    match t.rest[0]
    case Io => Thread(t.rest[1..], t.held)
    case Lock(m) => Thread(t.rest[1..], t.held + {m})
    case Unlock(m) => Thread(t.rest[1..], t.held - {m})
    case Use(_) => Thread(t.rest[1..], t.held)
  }

  // A step that is not enabled leaves the thread waiting.
  ghost function Next(threads: seq<Thread>, step: Step): seq<Thread> {
    match step
    case Spawn(calls) => threads + [Thread(AllOps(calls), {})]
    case Go(k) => if Enabled(threads, k) then threads[k := Went(threads[k])] else threads
  }

  ghost function Run(threads: seq<Thread>, steps: seq<Step>): seq<Thread>
    decreases |steps|
  {
    if steps == [] then threads else Run(Next(threads, steps[0]), steps[1..])
  }

  ghost predicate Orderly(threads: seq<Thread>) {
    && (forall k | 0 <= k < |threads| :: Walk(threads[k].rest, threads[k].held) == Some({}))
    && forall j, k | 0 <= j < k < |threads| :: threads[j].held !! threads[k].held
  }

  lemma NextKeeps(threads: seq<Thread>, step: Step)
    requires Orderly(threads)
    ensures Orderly(Next(threads, step))
  {
    hide AllOps;
    match step
    case Spawn(calls) => CallsAreOrderly(calls);
    case Go(k) =>
      if Enabled(threads, k) {
        var threads' := Next(threads, step);
        forall i, j | 0 <= i < j < |threads|
          ensures threads'[i].held !! threads'[j].held
        {
          assert threads[i] in threads && threads[j] in threads;
        }
      }
  }

  lemma {:induction false} RunKeeps(threads: seq<Thread>, steps: seq<Step>)
    requires Orderly(threads)
    ensures Orderly(Run(threads, steps))
    decreases |steps|
  {
    hide Next, Orderly;
    if steps != [] {
      NextKeeps(threads, steps[0]);
      RunKeeps(Next(threads, steps[0]), steps[1..]);
    }
  }

  // The holder of a mutex can step when nothing above that mutex is held.
  lemma HolderSteps(threads: seq<Thread>, k: nat, m: Mutex)
    requires Orderly(threads) && k < |threads| && m in threads[k].held
    requires forall above: Mutex | Rank(above) > Rank(m) :: IsFree(threads, above)
    ensures Enabled(threads, k)
  {
    var t := threads[k];
    if t.rest != [] && t.rest[0].Lock? {
      assert Rank(m) < Rank(t.rest[0].m);
    }
  }

  lemma SomeoneSteps(threads: seq<Thread>, unfinished: nat)
    requires Orderly(threads) && unfinished < |threads| && threads[unfinished].rest != []
    ensures exists k :: Enabled(threads, k)
  {
    hide Walk, Orderly;
    if !IsFree(threads, LATENCY) {
      var k :| 0 <= k < |threads| && LATENCY in threads[k].held;
      HolderSteps(threads, k, LATENCY);
    } else if !IsFree(threads, TOPICS) {
      var k :| 0 <= k < |threads| && TOPICS in threads[k].held;
      HolderSteps(threads, k, TOPICS);
    } else if !IsFree(threads, GROUPS) {
      var k :| 0 <= k < |threads| && GROUPS in threads[k].held;
      HolderSteps(threads, k, GROUPS);
    } else {
      forall m: Mutex
        ensures IsFree(threads, m)
      {
        assert m == GROUPS || m == TOPICS || m == LATENCY;
      }
      assert Enabled(threads, unfinished);
    }
  }

  /** No two threads hold a mutex, no thread asks for one that it holds, and while a thread is unfinished some thread can step. */
  lemma NoDeadlock(steps: seq<Step>)
    ensures var threads := Run([], steps);
      && (forall j, k, m: Mutex | 0 <= j < |threads| && 0 <= k < |threads| && m in threads[j].held && m in threads[k].held :: j == k)
      && (forall k | 0 <= k < |threads| && threads[k].rest != [] && threads[k].rest[0].Lock? :: threads[k].rest[0].m !in threads[k].held)
      && ((exists k :: 0 <= k < |threads| && threads[k].rest != []) ==> exists k :: Enabled(threads, k))
  {
    hide Run;
    RunKeeps([], steps);
    var threads := Run([], steps);
    if k :| 0 <= k < |threads| && threads[k].rest != [] {
      SomeoneSteps(threads, k);
    }
  }

  // The data that a thread uses next.
  predicate AboutToUse(t: Thread, m: Mutex) {
    t.rest != [] && t.rest[0] == Use(m)
  }

  /** No race: in every reachable state the data of a mutex is about to be used by one thread at most, and that one holds it. */
  lemma NoRace(steps: seq<Step>, j: nat, k: nat, m: Mutex)
    requires var threads := Run([], steps);
      j < |threads| && k < |threads| && AboutToUse(threads[j], m) && AboutToUse(threads[k], m)
    ensures j == k && m in Run([], steps)[k].held
  {
    hide Run;
    RunKeeps([], steps);
  }

  /** What is used at all: every way through a request that reads or changes the data of a mutex uses it. */
  lemma WhatIsUsed(call: Call)
    ensures Use(TOPICS) in Ops(call) <==> call.OnTopics? || call.Produce? || (call.CommitOffset? && call.looksUpTopic)
    ensures Use(GROUPS) in Ops(call) <==> call.OnGroups? || call.CommitOffset? || call.RemoveConsumer?
    ensures Use(LATENCY) in Ops(call) <==> !call.RemoveConsumer? && !(call.Produce? && call.threw)
  {
    hide SyncPartitions;
    if call.Produce? && call.sync.Some? {
      SyncUses(call.sync.value);
    }
  }

  lemma {:induction false} SyncUses(partitions: seq<SyncedPartition>)
    ensures Use(GROUPS) !in SyncPartitions(partitions) && Use(LATENCY) !in SyncPartitions(partitions)
  {
    if partitions != [] {
      SyncUses(partitions[..|partitions| - 1]);
    }
  }

  function Remaining(threads: seq<Thread>): nat {
    if threads == [] then 0 else Remaining(threads[..|threads| - 1]) + |threads[|threads| - 1].rest|
  }

  lemma {:induction false} RemainingFalls(threads: seq<Thread>, k: nat)
    requires k < |threads| && threads[k].rest != []
    ensures Remaining(threads[k := Went(threads[k])]) == Remaining(threads) - 1
  {
    var next := threads[k := Went(threads[k])];
    if k < |threads| - 1 {
      assert next[..|next| - 1] == threads[..|threads| - 1][k := Went(threads[k])];
      RemainingFalls(threads[..|threads| - 1], k);
    } else {
      assert next[..|next| - 1] == threads[..|threads| - 1];
    }
  }

  lemma {:induction false} NothingRemains(threads: seq<Thread>)
    requires Remaining(threads) == 0
    ensures forall k | 0 <= k < |threads| :: threads[k].rest == []
  {
    if threads != [] {
      NothingRemains(threads[..|threads| - 1]);
    }
  }

  // Steps that are each possible when their turn comes.
  ghost predicate IsSchedule(threads: seq<Thread>, ks: seq<nat>)
    decreases |ks|
  {
    ks == [] || (Enabled(threads, ks[0]) && IsSchedule(Next(threads, Go(ks[0])), ks[1..]))
  }

  ghost function After(threads: seq<Thread>, ks: seq<nat>): seq<Thread>
    decreases |ks|
  {
    if ks == [] then threads else After(Next(threads, Go(ks[0])), ks[1..])
  }

  /**
   However threads are scheduled, as long as each step is possible: every step uses up one operation, the schedule can go on
   until every thread has finished, and it cannot go on after that.
   */
  lemma {:induction false} EveryScheduleFinishes(threads: seq<Thread>, ks: seq<nat>)
    requires Orderly(threads) && IsSchedule(threads, ks)
    ensures var reached := After(threads, ks);
      && |ks| + Remaining(reached) == Remaining(threads)
      && ((exists k :: Enabled(reached, k)) <==> |ks| < Remaining(threads))
      && (|ks| == Remaining(threads) ==> forall k | 0 <= k < |reached| :: reached[k].rest == [])
    decreases |ks|
  {
    if ks == [] {
      if Remaining(threads) == 0 {
        NothingRemains(threads);
      } else {
        var unfinished := SomeUnfinished(threads);
        SomeoneSteps(threads, unfinished);
      }
    } else {
      RemainingFalls(threads, ks[0]);
      NextKeeps(threads, Go(ks[0]));
      EveryScheduleFinishes(Next(threads, Go(ks[0])), ks[1..]);
    }
  }

  lemma {:induction false} SomeUnfinished(threads: seq<Thread>) returns (k: nat)
    requires Remaining(threads) > 0
    ensures k < |threads| && threads[k].rest != []
  {
    if threads[|threads| - 1].rest != [] {
      k := |threads| - 1;
    } else {
      k := SomeUnfinished(threads[..|threads| - 1]);
    }
  }
}
