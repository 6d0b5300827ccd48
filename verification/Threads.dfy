/**
 Client threads of a standalone broker producing at the same time, down to the single write(). A thread
 waits for topics_mutex_, finds the topic, pushes to memory, writes its record in pieces, and answers OK;
 the broker may crash between any two of these steps and is rebuilt from its files.
 */
module Threads {
  import opened Types
  import opened Record
  import opened TopicLog
  import opened Store

  // Where a PRODUCE stands. before is the store as it was when the message was pushed.
  datatype Stage =
    | Waiting
    | Entered
    | Found
    | Pushed(before: Store)
    | Writing(before: Store, done: nat)

  datatype Doing = Doing(id: nat, tp: TopicPartition, payload: string, stage: Stage)

  // A PRODUCE answered OK: the id-th that was begun, by this thread, stored at this offset.
  datatype Ack = Ack(thread: nat, id: nat, tp: TopicPartition, offset: nat, payload: string)

  datatype World = World(up: bool, store: Store, holder: Option<nat>, threads: map<nat, Doing>, begun: nat, acked: seq<Ack>)

  datatype Step =
    | Begin(k: nat, tp: TopicPartition, payload: string)
    | Proceed(k: nat, count: nat)
    | Crash
    | Restart

  const START := World(true, Store(map[], map[], map[]), None, map[], 0, [])

  function Next(w: World, step: Step): World {
    match step
    case Begin(k, tp, payload) =>
      if !w.up || k in w.threads || !Fits(payload) then w
      else w.(threads := w.threads[k := Doing(w.begun, tp, payload, Waiting)], begun := w.begun + 1)
    case Proceed(k, count) => if k in w.threads then Proceeded(w, k, count) else w
    case Crash => World(false, w.store, None, map[], w.begun, w.acked)
    case Restart => if w.up then w else World(true, Recovered(w.store.files, false), None, map[], w.begun, w.acked)
  }

  // The next step of a thread; count is what a write() takes.
  function Proceeded(w: World, k: nat, count: nat): World
    requires k in w.threads
  {
    var d, s := w.threads[k], w.store;
    match d.stage
    case Waiting => if w.holder.Some? then w else w.(holder := Some(k), threads := w.threads[k := d.(stage := Entered)])
    case Entered =>
      var found := s.(topics := WithTopic(s.topics, d.tp.topic));
      if HasPartition(found.topics, d.tp) then w.(store := found, threads := w.threads[k := d.(stage := Found)])
      else w.(store := found, holder := None, threads := w.threads - {k})
    case Found =>
      if !HasPartition(s.topics, d.tp) then w else
      w.(store := s.(topics := Push(s.topics, d.tp, d.payload)), threads := w.threads[k := d.(stage := Pushed(s))])
    case Pushed(before) =>
      w.(store := s.(files := Extended(s.files, d.tp, "")), threads := w.threads[k := d.(stage := Writing(before, 0))])
    case Writing(before, done) =>
      var record := Serialize(d.payload);
      if done >= |record| then
        w.(holder := None, threads := w.threads - {k},
           acked := w.acked + [Ack(k, d.id, d.tp, |Messages(before.topics, d.tp)|, d.payload)])
      else
        var end := if done + count <= |record| then done + count else |record|;
        w.(store := s.(files := Extended(s.files, d.tp, record[done..end])), threads := w.threads[k := d.(stage := Writing(before, end))])
  }

  function Run(steps: seq<Step>): World {
    if steps == [] then START else Next(Run(steps[..|steps| - 1]), steps[|steps| - 1])
  }

  // ----- The invariant -----

  // Exactly the holder of the mutex is past Waiting.
  ghost predicate Exclusive(w: World) {
    && (w.holder.Some? ==> w.holder.value in w.threads)
    && forall k | k in w.threads :: w.threads[k].stage.Waiting? <==> w.holder != Some(k)
  }

  // The store at each stage of the thread that holds the mutex.
  ghost predicate StageOk(s: Store, d: Doing) {
    && Fits(d.payload)
    && match d.stage
       case Waiting => true
       case Entered => Agrees(s)
       case Found => Agrees(s) && HasPartition(s.topics, d.tp)
       case Pushed(before) => PushedFrom(before, s, d) && s.files == before.files
       case Writing(before, done) =>
         PushedFrom(before, s, d) && done <= |Serialize(d.payload)|
         && s.files == Extended(before.files, d.tp, Serialize(d.payload)[..done])
  }

  ghost predicate PushedFrom(before: Store, s: Store, d: Doing) {
    && Agrees(before) && HasPartition(before.topics, d.tp)
    && s.topics == Push(before.topics, d.tp, d.payload) && s.progress == before.progress
  }

  ghost predicate StoreOk(w: World) {
    if !w.up then w.holder == None && w.threads == map[] && RecoverableFiles(w.store.files)
    else if w.holder.None? then Agrees(w.store)
    else w.holder.value in w.threads && StageOk(w.store, w.threads[w.holder.value])
  }

  // What the partition is known to hold: an unfinished append does not count.
  function Settled(w: World, tp: TopicPartition): seq<string> {
    if !w.up then Log(w.store.files, tp)
    else if w.holder.Some? && w.holder.value in w.threads && MidAppend(w.threads[w.holder.value].stage)
    then Messages(w.threads[w.holder.value].stage.before.topics, tp)
    else Messages(w.store.topics, tp)
  }

  predicate MidAppend(stage: Stage) {
    stage.Pushed? || stage.Writing?
  }

  ghost predicate IsStored(messages: seq<string>, ack: Ack) {
    ack.offset < |messages| && messages[ack.offset] == ack.payload
  }

  ghost predicate AcksStored(w: World) {
    forall ack | ack in w.acked :: IsStored(Settled(w, ack.tp), ack)
  }

  ghost predicate AcksRise(acked: seq<Ack>) {
    && (forall i, j | 0 <= i < j < |acked| && acked[i].tp == acked[j].tp :: acked[i].offset < acked[j].offset)
    && forall i, j | 0 <= i < j < |acked| && acked[i].thread == acked[j].thread :: acked[i].id < acked[j].id
  }

  // Ids that are still to be acknowledged are later than every one that has been, thread by thread.
  ghost predicate IdsOk(w: World) {
    && (forall ack | ack in w.acked :: ack.id < w.begun)
    && (forall k | k in w.threads :: w.threads[k].id < w.begun && Fits(w.threads[k].payload))
    && forall k, ack | k in w.threads && ack in w.acked && ack.thread == k :: ack.id < w.threads[k].id
  }

  ghost predicate Inv(w: World) {
    Exclusive(w) && StoreOk(w) && AcksStored(w) && AcksRise(w.acked) && IdsOk(w)
  }

  // ----- The stages of one append -----

  lemma WithTopicAgrees(s: Store, topic: string)
    requires Agrees(s)
    ensures Agrees(s.(topics := WithTopic(s.topics, topic)))
    ensures forall tp :: Messages(WithTopic(s.topics, topic), tp) == Messages(s.topics, tp)
  {
    hide EncodeAll, Messages, HasPartition, WithTopic, AllFit;
    forall tp
      ensures Messages(WithTopic(s.topics, topic), tp) == Messages(s.topics, tp)
      ensures HasPartition(s.topics, tp) ==> HasPartition(WithTopic(s.topics, topic), tp)
    {
      WithTopicMessages(s.topics, topic, tp);
    }
  }

  lemma AppendDone(s: Store, d: Doing)
    requires StageOk(s, d) && d.stage.Writing? && d.stage.done == |Serialize(d.payload)|
    ensures Agrees(s)
    ensures forall tp :: Messages(s.topics, tp) == Messages(d.stage.before.topics, tp) + if tp == d.tp then [d.payload] else []
  {
    hide Agrees, Serialize, Messages, Push;
    var before := d.stage.before;
    assert Serialize(d.payload)[..d.stage.done] == Serialize(d.payload);
    assert WithTopic(before.topics, d.tp.topic) == before.topics;
    AppendedAgrees(before, d.tp, d.payload);
    forall tp
      ensures Messages(s.topics, tp) == Messages(before.topics, tp) + if tp == d.tp then [d.payload] else []
    {
      PushedMessages(before.topics, d.tp, d.payload, tp);
    }
  }

  // The stages of one append add up to the PRODUCE of Store: answered at the end, and what a crash leaves before it.
  lemma StagesAreProduce(s: Store, d: Doing)
    requires StageOk(s, d) && d.stage.Writing?
    ensures var a := Appended(if d.stage.done == |Serialize(d.payload)| then Completed else Crashed, d.stage.done);
      ProduceLocally(d.stage.before, d.tp, d.payload, a) == (s, if a.outcome.Completed? then Answered("OK") else Died)
  {
    hide Agrees, Serialize, Push, Extended;
    assert WithTopic(d.stage.before.topics, d.tp.topic) == d.stage.before.topics;
  }

  // A crash at any stage leaves recoverable files whose logs hold all that was settled.
  lemma CrashKeeps(s: Store, d: Doing)
    requires StageOk(s, d) && !d.stage.Waiting?
    ensures RecoverableFiles(s.files)
    ensures forall tp :: (if MidAppend(d.stage) then Messages(d.stage.before.topics, tp) else Messages(s.topics, tp)) <= Log(s.files, tp)
  {
    hide EncodeAll, Log, Messages, Serialize, Recoverable, AllFit, Push;
    if d.stage.Writing? {
      var before := d.stage.before;
      KeysExist(before);
      forall tp
        ensures Recoverable(GetOr(s.files, tp, "")) && Messages(before.topics, tp) <= Log(s.files, tp)
      {
        TornAppendLogs(before, d.tp, d.payload, d.stage.done, tp);
      }
    } else {
      AgreeingFiles(if d.stage.Pushed? then d.stage.before else s);
    }
  }

  lemma KeysExist(s: Store)
    requires Agrees(s)
    ensures forall tp | tp in s.files :: tp.partition >= 0
  {
    hide EncodeAll, Messages, AllFit;
  }

  lemma AgreeingFiles(s: Store)
    requires Agrees(s)
    ensures RecoverableFiles(s.files)
    ensures forall tp :: Log(s.files, tp) == Messages(s.topics, tp)
  {
    hide EncodeAll, Messages, AllFit, Log, Recoverable;
    KeysExist(s);
    forall tp
      ensures Recoverable(GetOr(s.files, tp, "")) && Log(s.files, tp) == Messages(s.topics, tp)
    {
      AgreeingLog(s, tp);
    }
  }

  // ----- Every step -----

  // What a partition is known to hold only grows.
  ghost predicate Grows(w: World, w': World) {
    forall tp :: Settled(w, tp) <= Settled(w', tp)
  }

  lemma CrashStep(w: World)
    requires Inv(w)
    ensures Inv(Next(w, Crash)) && Grows(w, Next(w, Crash))
  {
    hide Agrees, Log, Messages, RecoverableFiles, StageOk, AcksRise;
    var w' := Next(w, Crash);
    if w.up {
      if w.holder.Some? {
        CrashKeeps(w.store, w.threads[w.holder.value]);
      } else {
        AgreeingFiles(w.store);
      }
    }
  }

  lemma RestartStep(w: World)
    requires Inv(w)
    ensures Inv(Next(w, Restart)) && Grows(w, Next(w, Restart))
  {
    hide Agrees, Log, Messages, RecoverableFiles, AcksRise, Recovered;
    if !w.up {
      RecoveryAgrees(w.store.files, false);
    }
  }

  lemma BeginStep(w: World, k: nat, tp: TopicPartition, payload: string)
    requires Inv(w)
    ensures Inv(Next(w, Begin(k, tp, payload))) && Grows(w, Next(w, Begin(k, tp, payload)))
  {
    hide Agrees, Log, Messages, RecoverableFiles, AcksRise, StageOk, Fits;
    var w' := Next(w, Begin(k, tp, payload));
    forall other
      ensures Settled(w, other) == Settled(w', other)
    {
    }
  }

  ghost predicate Quiet(w: World, w': World) {
    w'.acked == w.acked && forall tp :: Settled(w', tp) == Settled(w, tp)
  }

  ghost predicate Acknowledges(w: World, w': World, ack: Ack) {
    && w'.acked == w.acked + [ack] && ack.offset == |Settled(w, ack.tp)|
    && forall tp :: Settled(w', tp) == Settled(w, tp) + if tp == ack.tp then [ack.payload] else []
  }

  predicate Finishes(w: World, k: nat) {
    k in w.threads && w.threads[k].stage.Writing? && w.threads[k].stage.done >= |Serialize(w.threads[k].payload)|
  }

  lemma ProceedExclusive(w: World, k: nat, count: nat)
    requires Exclusive(w) && k in w.threads
    ensures Exclusive(Proceeded(w, k, count))
  {
    hide WithTopic, HasPartition, Push, Extended, Serialize, Messages;
  }

  // The steps before the message is pushed.
  lemma EarlyStep(w: World, k: nat, count: nat)
    requires Inv(w) && k in w.threads && !MidAppend(w.threads[k].stage)
    ensures StoreOk(Proceeded(w, k, count)) && Quiet(w, Proceeded(w, k, count))
  {
    hide Agrees, Log, Messages, WithTopic, HasPartition, Push, Serialize, Extended, AcksRise, RecoverableFiles;
    var d := w.threads[k];
    if d.stage.Entered? {
      WithTopicAgrees(w.store, d.tp.topic);
    }
  }

  lemma WriteStep(w: World, k: nat, count: nat)
    requires Inv(w) && k in w.threads && MidAppend(w.threads[k].stage) && !Finishes(w, k)
    ensures StoreOk(Proceeded(w, k, count)) && Quiet(w, Proceeded(w, k, count))
  {
    hide Agrees, Log, Messages, WithTopic, HasPartition, Push, Serialize, Extended, AcksRise, RecoverableFiles;
    var d := w.threads[k];
    if d.stage.Writing? {
      var record, done := Serialize(d.payload), d.stage.done;
      WriteMore(d.stage.before.files, d.tp, record, done, if done + count <= |record| then done + count else |record|);
    } else {
      assert Serialize(d.payload)[..0] == "";
    }
  }

  lemma FinishStep(w: World, k: nat, count: nat)
    requires Inv(w) && Finishes(w, k)
    ensures var d, w' := w.threads[k], Proceeded(w, k, count);
      StoreOk(w') && Acknowledges(w, w', Ack(k, d.id, d.tp, |Settled(w, d.tp)|, d.payload))
  {
    hide Agrees, Log, Messages, WithTopic, HasPartition, Push, Serialize, Extended, AcksRise, RecoverableFiles;
    AppendDone(w.store, w.threads[k]);
  }

  lemma QuietKeeps(w: World, w': World)
    requires Inv(w) && Quiet(w, w') && Exclusive(w') && StoreOk(w') && IdsOk(w')
    ensures Inv(w')
  {
    hide StoreOk, Exclusive, Settled;
  }

  lemma AcknowledgedKeeps(w: World, w': World, ack: Ack)
    requires Inv(w) && Acknowledges(w, w', ack) && Exclusive(w') && StoreOk(w')
    requires ack.thread in w.threads && ack.id == w.threads[ack.thread].id
    requires w'.threads == w.threads - {ack.thread} && w'.begun == w.begun
    ensures Inv(w')
  {
    hide StoreOk, Exclusive, Settled;
  }

  lemma ProceedIds(w: World, k: nat, count: nat)
    requires IdsOk(w) && k in w.threads && !Finishes(w, k)
    ensures IdsOk(Proceeded(w, k, count))
  {
    hide WithTopic, HasPartition, Push, Extended, Serialize, Messages, Fits;
  }

  lemma ProceedStep(w: World, k: nat, count: nat)
    requires Inv(w) && k in w.threads
    ensures Inv(Proceeded(w, k, count))
    ensures var d, w' := w.threads[k], Proceeded(w, k, count);
      if Finishes(w, k) then Acknowledges(w, w', Ack(k, d.id, d.tp, |Settled(w, d.tp)|, d.payload)) else Quiet(w, w')
  {
    hide StoreOk, AcksStored, AcksRise, IdsOk, Settled, Agrees, Serialize, Exclusive;
    ProceedExclusive(w, k, count);
    if Finishes(w, k) {
      FinishStep(w, k, count);
      var d := w.threads[k];
      AcknowledgedKeeps(w, Proceeded(w, k, count), Ack(k, d.id, d.tp, |Settled(w, d.tp)|, d.payload));
    } else {
      if MidAppend(w.threads[k].stage) {
        WriteStep(w, k, count);
      } else {
        EarlyStep(w, k, count);
      }
      ProceedIds(w, k, count);
      QuietKeeps(w, Proceeded(w, k, count));
    }
  }

  lemma NextKeeps(w: World, step: Step)
    requires Inv(w)
    ensures Inv(Next(w, step)) && Grows(w, Next(w, step))
    ensures w.acked <= Next(w, step).acked
  {
    hide Inv, Settled, Proceeded;
    match step
    case Begin(k, tp, payload) => BeginStep(w, k, tp, payload);
    case Proceed(k, count) =>
      if k in w.threads {
        ProceedStep(w, k, count);
      }
    case Crash => CrashStep(w);
    case Restart => RestartStep(w);
  }

  lemma StartHolds()
    ensures Inv(START)
  {
    EmptyRejected();
  }

  lemma {:induction false} RunKeeps(steps: seq<Step>)
    ensures Inv(Run(steps))
  {
    hide Inv, Next;
    if steps == [] {
      StartHolds();
    } else {
      RunKeeps(steps[..|steps| - 1]);
      NextKeeps(Run(steps[..|steps| - 1]), steps[|steps| - 1]);
    }
  }

  // ----- The theorems -----

  /** Whenever the mutex is free, every log file is the encoding of the messages in memory, and decodes to them. */
  lemma MemoryMatchesDisk(steps: seq<Step>, tp: TopicPartition)
    requires Run(steps).up && Run(steps).holder.None?
    ensures var s := Run(steps).store;
      GetOr(s.files, tp, "") == EncodeAll(Messages(s.topics, tp)) && Log(s.files, tp) == Messages(s.topics, tp)
  {
    hide Run, EncodeAll, Messages, Log;
    RunKeeps(steps);
    AgreeingLog(Run(steps).store, tp);
  }

  lemma {:induction false} AcksStay(steps: seq<Step>, more: seq<Step>)
    ensures Run(steps).acked <= Run(steps + more).acked
    decreases |more|
  {
    hide Next;
    if more == [] {
      assert steps + more == steps;
    } else {
      var front := more[..|more| - 1];
      assert (steps + more)[..|steps + more| - 1] == steps + front;
      AcksStay(steps, front);
      RunKeeps(steps + front);
      NextKeeps(Run(steps + front), more[|more| - 1]);
    }
  }

  /**
   Acknowledged durability: a PRODUCE once answered OK is, in every later state, at the same offset of its partition:
   in memory while the broker runs, in the decoded log file after a crash at any byte of any append.
   */
  lemma AcknowledgedForever(steps: seq<Step>, more: seq<Step>, ack: Ack)
    requires ack in Run(steps).acked
    ensures var w := Run(steps + more);
      IsStored(if w.up then Messages(w.store.topics, ack.tp) else Log(w.store.files, ack.tp), ack)
  {
    hide Run, AcksRise, IdsOk, Exclusive, Messages, Log;
    var w := Run(steps + more);
    AcksStay(steps, more);
    RunKeeps(steps + more);
    assert ack in w.acked;
    if w.up {
      InMemory(w, ack.tp);
    }
  }

  lemma InMemory(w: World, tp: TopicPartition)
    requires Inv(w) && w.up
    ensures Settled(w, tp) <= Messages(w.store.topics, tp)
  {
    hide Messages, Log, Agrees, Push, AcksRise, AcksStored, IdsOk, RecoverableFiles;
    if w.holder.Some? && MidAppend(w.threads[w.holder.value].stage) {
      var d := w.threads[w.holder.value];
      PushedMessages(d.stage.before.topics, d.tp, d.payload, tp);
    }
  }

  /** Two acknowledged PRODUCEs of a thread to one partition are two different records, in the order of that thread. */
  lemma ThreadOrder(steps: seq<Step>, a: Ack, b: Ack)
    requires a in Run(steps).acked && b in Run(steps).acked && a.thread == b.thread && a.tp == b.tp
    ensures a.id < b.id <==> a.offset < b.offset
    ensures a.id == b.id <==> a == b
  {
    hide Run, Exclusive, StoreOk, AcksStored, IdsOk;
    RunKeeps(steps);
    var acked := Run(steps).acked;
    var i :| 0 <= i < |acked| && acked[i] == a;
    var j :| 0 <= j < |acked| && acked[j] == b;
  }

  // The payloads acknowledged for one partition, in the order of their acknowledgement.
  function PayloadsOf(acked: seq<Ack>, tp: TopicPartition): seq<string> {
    if acked == [] then [] else
    var last := acked[|acked| - 1];
    PayloadsOf(acked[..|acked| - 1], tp) + if last.tp == tp then [last.payload] else []
  }

  /** Exactly once: without a crash, a partition holds the acknowledged payloads, each once, in order, and nothing else. */
  lemma {:induction false} ExactlyTheAcknowledged(steps: seq<Step>, tp: TopicPartition)
    requires Crash !in steps
    ensures Run(steps).up
    ensures Settled(Run(steps), tp) == PayloadsOf(Run(steps).acked, tp)
    ensures Run(steps).holder.None? ==> Messages(Run(steps).store.topics, tp) == PayloadsOf(Run(steps).acked, tp)
  {
    hide Next, Messages;
    if steps != [] {
      var front, step := steps[..|steps| - 1], steps[|steps| - 1];
      ExactlyTheAcknowledged(front, tp);
      RunKeeps(front);
      OneMore(Run(front), step, tp);
    } else {
      NoMessages(tp);
    }
  }

  lemma NoMessages(tp: TopicPartition)
    ensures Messages(START.store.topics, tp) == []
  {
  }

  lemma OneMore(w: World, step: Step, tp: TopicPartition)
    requires Inv(w) && w.up && step != Crash
    requires Settled(w, tp) == PayloadsOf(w.acked, tp)
    ensures Next(w, step).up && Settled(Next(w, step), tp) == PayloadsOf(Next(w, step).acked, tp)
  {
    hide Inv, Settled, PayloadsOf, Serialize, Fits;
    match step
    case Begin(k, other, payload) => BeginQuiet(w, k, other, payload);
    case Proceed(k, count) =>
      if k in w.threads {
        ProceedStep(w, k, count);
        ProceedUp(w, k, count);
        if Finishes(w, k) {
          PayloadsSnoc(w.acked, Proceeded(w, k, count).acked[|w.acked|], tp);
        }
      }
    case Restart =>
  }

  lemma PayloadsSnoc(acked: seq<Ack>, ack: Ack, tp: TopicPartition)
    ensures PayloadsOf(acked + [ack], tp) == PayloadsOf(acked, tp) + if ack.tp == tp then [ack.payload] else []
  {
    assert (acked + [ack])[..|acked|] == acked;
  }

  lemma ProceedUp(w: World, k: nat, count: nat)
    requires k in w.threads
    ensures Proceeded(w, k, count).up == w.up
  {
  }

  lemma BeginQuiet(w: World, k: nat, tp: TopicPartition, payload: string)
    requires Inv(w)
    ensures Quiet(w, Next(w, Begin(k, tp, payload))) && Next(w, Begin(k, tp, payload)).up == w.up
  {
    hide Messages, Log, Agrees, StageOk, AcksRise, AcksStored, RecoverableFiles, Fits;
  }
}
