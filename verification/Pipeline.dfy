/** The document pipeline of include/wookie/application.hpp: every stage pushes the record
    it has extended into the queue of the next stage and, once that succeeded, acknowledges
    it in its own queue; the last stage only acknowledges. A queue delivers a record any
    number of times and drops it only when it is acknowledged. */
module Pipeline {
  import opened MetaInfo

  /** A record at a stage. */
  datatype Task = Task(stage: nat, record: Fields)

  /** The queues; the pushes and acknowledgements under way; and as history the records
      admitted, those for which the last stage called finish, and the tasks for which a
      stage called finish and thereby answered "ok". */
  datatype Line = Line(
    queues: seq<multiset<Fields>>,
    pushing: multiset<Task>,
    acks: multiset<Task>,
    admitted: set<Fields>,
    finished: set<Fields>,
    confirmed: set<Task>)

  datatype Event =
    | Admitted(record: Fields)
    | Delivered(task: Task)
    | PushDone(task: Task, accepted: bool, reported: bool)
    | AckDone(task: Task, removed: bool)

  /** A push is reported as successful only if the queue took the record; a reply may also
      be lost. Only tasks under way complete. */
  predicate Enabled(s: Line, e: Event) {
    match e
    case Admitted(_) => |s.queues| > 0
    case Delivered(task) => task.stage < |s.queues| && task.record in s.queues[task.stage]
    case PushDone(task, accepted, reported) => task in s.pushing && task.stage + 1 < |s.queues|
      && (reported ==> accepted)
    case AckDone(task, _) => task in s.acks && task.stage < |s.queues|
  }

  /** finish(): answers and asks the stage's own queue to drop the record. */
  function Finish(s: Line, task: Task): Line {
    s.(acks := s.acks + multiset{task}, confirmed := s.confirmed + {task})
  }

  function Next(stages: seq<Fields -> Fields>, s: Line, e: Event): Line
    requires Enabled(s, e) && |stages| == |s.queues|
  {
    match e
    case Admitted(record) =>
      s.(queues := s.queues[0 := s.queues[0] + multiset{record}], admitted := s.admitted + {record})
    case Delivered(task) =>
      if task.stage + 1 < |s.queues| then s.(pushing := s.pushing + multiset{task})
      else Finish(s.(finished := s.finished + {task.record}), task)
    case PushDone(task, accepted, reported) =>
      var next := task.stage + 1;
      var s1 := s.(pushing := s.pushing - multiset{task});
      var s2 := if accepted
        then s1.(queues := s.queues[next := s.queues[next] + multiset{stages[task.stage](task.record)}]) else s1;
      if reported then Finish(s2, task) else s2
    case AckDone(task, removed) =>
      var s1 := s.(acks := s.acks - multiset{task});
      if removed then s1.(queues := s.queues[task.stage := s.queues[task.stage] - multiset{task.record}]) else s1
  }

  ghost predicate IsRun(stages: seq<Fields -> Fields>, s: Line, events: seq<Event>)
    requires |stages| == |s.queues|
    decreases |events|, 0
  {
    events == [] ||
    var n := |events| - 1;
    IsRun(stages, s, events[..n]) && Enabled(After(stages, s, events[..n]), events[n])
  }

  ghost function After(stages: seq<Fields -> Fields>, s: Line, events: seq<Event>): (r: Line)
    requires |stages| == |s.queues| && IsRun(stages, s, events)
    ensures |r.queues| == |s.queues|
    decreases |events|, 1
  {
    if events == [] then s else
    var n := |events| - 1;
    Next(stages, After(stages, s, events[..n]), events[n])
  }

  function Empty(n: nat): Line {
    Line(seq(n, (i: nat) => multiset{}), multiset{}, multiset{}, {}, {}, {})
  }

  /** The record as it leaves stage j - 1, if it stood as `record` in the queue of stage i. */
  ghost function Form(stages: seq<Fields -> Fields>, i: nat, j: nat, record: Fields): Fields
    requires i <= j <= |stages|
  {
    Through(stages[i..j], record)
  }

  lemma {:induction false} FormNext(stages: seq<Fields -> Fields>, i: nat, j: nat, record: Fields)
    requires i <= j < |stages|
    ensures Form(stages, i, i, record) == record
    ensures Form(stages, i, j + 1, record) == stages[j](Form(stages, i, j, record))
  {
    assert stages[i..j + 1][..j - i] == stages[i..j];
  }

  lemma {:induction false} FormSplits(stages: seq<Fields -> Fields>, i: nat, j: nat, k: nat, record: Fields)
    requires i <= j <= k <= |stages|
    ensures Form(stages, i, k, record) == Form(stages, j, k, Form(stages, i, j, record))
  {
    if j == k {
      assert stages[j..k] == [];
    } else {
      FormSplits(stages, i, j, k - 1, record);
      FormNext(stages, i, k - 1, record);
      FormNext(stages, j, k - 1, Form(stages, i, j, record));
    }
  }

  /** The record of stage i stands in the queue of stage j, with what the stages from i to
      j - 1 add to it. */
  ghost predicate Queued(stages: seq<Fields -> Fields>, s: Line, i: nat, j: nat, record: Fields) {
    i <= j < |s.queues| == |stages| && Form(stages, i, j, record) in s.queues[j]
  }

  ghost predicate IsFinished(stages: seq<Fields -> Fields>, s: Line, i: nat, record: Fields) {
    i < |stages| && Form(stages, i, |stages| - 1, record) in s.finished
  }

  /** The record of stage i, with exactly what the stages passed so far add to it, sits in
      the queue of stage i or of a later one, or the last stage has finished it. */
  ghost predicate Safe(stages: seq<Fields -> Fields>, s: Line, i: nat, record: Fields) {
    IsFinished(stages, s, i, record) || exists j: nat :: Queued(stages, s, i, j, record)
  }

  /** The record that the stage confirmed is safe behind that stage. */
  ghost predicate SafeBehind(stages: seq<Fields -> Fields>, s: Line, task: Task) {
    && task.stage < |stages|
    && if task.stage + 1 < |stages| then Safe(stages, s, task.stage + 1, stages[task.stage](task.record))
       else task.record in s.finished
  }

  ghost predicate Invariant(stages: seq<Fields -> Fields>, s: Line) {
    && (forall record :: record in s.admitted ==> Safe(stages, s, 0, record))
    && (forall task :: task in s.confirmed ==> SafeBehind(stages, s, task))
    && (forall task :: task in s.acks ==> task in s.confirmed)
  }

  /** Queues and finished records only grow. */
  ghost predicate Grows(s: Line, s': Line) {
    && |s.queues| == |s'.queues| && s.finished <= s'.finished
    && forall j :: 0 <= j < |s.queues| ==> s.queues[j] <= s'.queues[j]
  }

  lemma {:induction false} GrowingKeepsSafe(stages: seq<Fields -> Fields>, s: Line, s': Line, i: nat, record: Fields)
    requires Grows(s, s') && Safe(stages, s, i, record)
    ensures Safe(stages, s', i, record)
  {
    if !IsFinished(stages, s, i, record) {
      var j: nat :| Queued(stages, s, i, j, record);
      assert s.queues[j] <= s'.queues[j];
      assert Queued(stages, s', i, j, record);
    }
  }

  /** Dropping one copy of a record that is safe behind its stage loses nothing. */
  lemma {:induction false} DroppingKeepsSafe(stages: seq<Fields -> Fields>, s: Line, s': Line, task: Task,
        i: nat, record: Fields)
    requires task.stage < |s.queues| == |stages| && SafeBehind(stages, s, task)
    requires s'.queues == s.queues[task.stage := s.queues[task.stage] - multiset{task.record}]
    requires s'.finished == s.finished && Safe(stages, s, i, record)
    ensures Safe(stages, s', i, record)
  {
    hide Form;
    if j: nat :| Queued(stages, s, i, j, record) {
      if j != task.stage || Form(stages, i, j, record) != task.record {
        assert Queued(stages, s', i, j, record);
      } else if j + 1 == |stages| {
        assert IsFinished(stages, s', i, record);
      } else {
        BehindIsSafe(stages, s, s', task, i, record);
      }
    }
  }

  lemma {:induction false} BehindIsSafe(stages: seq<Fields -> Fields>, s: Line, s': Line, task: Task,
        i: nat, record: Fields)
    requires i <= task.stage && task.stage + 1 < |stages| && |s.queues| == |stages| && SafeBehind(stages, s, task)
    requires Form(stages, i, task.stage, record) == task.record
    requires |s'.queues| == |stages| && s'.finished == s.finished
    requires forall j :: task.stage < j < |stages| ==> s'.queues[j] == s.queues[j]
    ensures Safe(stages, s', i, record)
  {
    hide Form;
    var k, pushed := task.stage + 1, stages[task.stage](task.record);
    FormNext(stages, i, task.stage, record);
    if IsFinished(stages, s, k, pushed) {
      FormSplits(stages, i, k, |stages| - 1, record);
      assert IsFinished(stages, s', i, record);
    } else {
      var j: nat :| Queued(stages, s, k, j, pushed);
      FormSplits(stages, i, k, j, record);
      assert Queued(stages, s', i, j, record);
    }
  }

  lemma {:induction false} AckKeepsInvariant(stages: seq<Fields -> Fields>, s: Line, e: Event)
    requires |stages| == |s.queues| && Enabled(s, e) && Invariant(stages, s)
    requires e.AckDone? && e.removed
    ensures Invariant(stages, Next(stages, s, e))
  {
    hide Safe;
    var s' := Next(stages, s, e);
    forall i: nat, record | Safe(stages, s, i, record) ensures Safe(stages, s', i, record) {
      DroppingKeepsSafe(stages, s, s', e.task, i, record);
    }
  }

  lemma {:induction false} NextGrows(stages: seq<Fields -> Fields>, s: Line, e: Event)
    requires |stages| == |s.queues| && Enabled(s, e)
    requires !(e.AckDone? && e.removed)
    ensures Grows(s, Next(stages, s, e))
    ensures forall task :: task in Next(stages, s, e).acks ==> task in s.acks || task in Next(stages, s, e).confirmed
    ensures s.confirmed <= Next(stages, s, e).confirmed
  {
  }

  lemma {:induction false} StepKeepsInvariant(stages: seq<Fields -> Fields>, s: Line, e: Event)
    requires |stages| == |s.queues| && Enabled(s, e) && Invariant(stages, s)
    ensures Invariant(stages, Next(stages, s, e))
  {
    if e.AckDone? && e.removed {
      AckKeepsInvariant(stages, s, e);
    } else {
      hide Safe;
      hide Next;
      hide Grows;
      var s' := Next(stages, s, e);
      NextGrows(stages, s, e);
      forall i: nat, record | Safe(stages, s, i, record) ensures Safe(stages, s', i, record) {
        GrowingKeepsSafe(stages, s, s', i, record);
      }
      FinishedGrows(stages, s, e);
      NewIsSafe(stages, s, e);
    }
  }

  lemma FinishedGrows(stages: seq<Fields -> Fields>, s: Line, e: Event)
    requires |stages| == |s.queues| && Enabled(s, e)
    ensures s.finished <= Next(stages, s, e).finished
  {
  }

  /** What a step adds to the history is safe right after it. */
  lemma {:induction false} NewIsSafe(stages: seq<Fields -> Fields>, s: Line, e: Event)
    requires |stages| == |s.queues| && Enabled(s, e)
    ensures var s' := Next(stages, s, e);
            && (forall record :: record in s'.admitted ==> record in s.admitted || Safe(stages, s', 0, record))
            && (forall task :: task in s'.confirmed ==> task in s.confirmed || SafeBehind(stages, s', task))
  {
    hide Form;
    var s' := Next(stages, s, e);
    match e
    case Admitted(record) =>
      FormNext(stages, 0, 0, record);
      assert Queued(stages, s', 0, 0, record);
    case Delivered(task) =>
    case PushDone(task, accepted, reported) =>
      if reported {
        var k, pushed := task.stage + 1, stages[task.stage](task.record);
        FormNext(stages, k, k, pushed);
        assert Queued(stages, s', k, k, pushed);
      }
    case AckDone(_, _) =>
  }

  /** An admitted record with what the first k stages add to it. */
  ghost predicate FormOf(stages: seq<Fields -> Fields>, k: nat, record: Fields, admitted: Fields) {
    k <= |stages| && record == Form(stages, 0, k, admitted)
  }

  ghost predicate Processed(stages: seq<Fields -> Fields>, s: Line, k: nat, record: Fields) {
    exists r :: r in s.admitted && FormOf(stages, k, record, r)
  }

  ghost predicate ProcessedTask(stages: seq<Fields -> Fields>, s: Line, task: Task) {
    task.stage < |stages| && Processed(stages, s, task.stage, task.record)
  }

  ghost predicate GenuineQueues(stages: seq<Fields -> Fields>, s: Line) {
    forall k, record :: 0 <= k < |s.queues| && record in s.queues[k] ==> Processed(stages, s, k, record)
  }

  ghost predicate GenuineTasks(stages: seq<Fields -> Fields>, s: Line) {
    && (forall task :: task in s.pushing ==> ProcessedTask(stages, s, task))
    && (forall task :: task in s.confirmed ==> ProcessedTask(stages, s, task))
    && (forall record :: record in s.finished ==> |stages| > 0 && ProcessedTask(stages, s, Task(|stages| - 1, record)))
  }

  /** Nothing but admitted records, with exactly what the stages passed add to them, is in
      any queue, on its way, acknowledged or finished. */
  ghost predicate Genuine(stages: seq<Fields -> Fields>, s: Line) {
    |s.queues| == |stages| && GenuineQueues(stages, s) && GenuineTasks(stages, s)
  }

  lemma {:induction false} ProcessedGrows(stages: seq<Fields -> Fields>, s: Line, s': Line, k: nat, record: Fields)
    requires s.admitted <= s'.admitted && Processed(stages, s, k, record)
    ensures Processed(stages, s', k, record)
  {
    var r :| r in s.admitted && FormOf(stages, k, record, r);
    assert r in s'.admitted;
  }

  lemma AddedRecord(stages: seq<Fields -> Fields>, s: Line, e: Event, k: nat, record: Fields)
    requires |stages| == |s.queues| && Enabled(s, e)
    requires k < |stages| && record in Next(stages, s, e).queues[k] && record !in s.queues[k]
    ensures (e.Admitted? && k == 0 && record == e.record) ||
            (e.PushDone? && k == e.task.stage + 1 && record == stages[e.task.stage](e.task.record))
  {
  }

  lemma {:induction false} PushedIsProcessed(stages: seq<Fields -> Fields>, s: Line, task: Task)
    requires ProcessedTask(stages, s, task)
    ensures Processed(stages, s, task.stage + 1, stages[task.stage](task.record))
  {
    hide Form;
    var r :| r in s.admitted && FormOf(stages, task.stage, task.record, r);
    FormNext(stages, 0, task.stage, r);
    assert FormOf(stages, task.stage + 1, stages[task.stage](task.record), r);
  }

  /** Whatever a step puts into a queue is an admitted record with what the stages add. */
  lemma {:induction false} AddedIsProcessed(stages: seq<Fields -> Fields>, s: Line, e: Event, k: nat, record: Fields)
    requires |stages| == |s.queues| && Enabled(s, e) && Genuine(stages, s)
    requires k < |stages| && record in Next(stages, s, e).queues[k]
    ensures Processed(stages, Next(stages, s, e), k, record)
  {
    var s' := Next(stages, s, e);
    assert s.admitted <= s'.admitted;
    if record in s.queues[k] {
      hide Next;
      ProcessedGrows(stages, s, s', k, record);
    } else {
      AddedRecord(stages, s, e, k, record);
      if e.Admitted? {
        FormNext(stages, 0, 0, record);
        assert FormOf(stages, 0, record, record);
      } else {
        hide Next;
        PushedIsProcessed(stages, s, e.task);
        ProcessedGrows(stages, s, s', k, record);
      }
    }
  }

  /** The tasks and finished records of a step come from the queues or from pushes. */
  lemma TasksOfStep(stages: seq<Fields -> Fields>, s: Line, e: Event)
    requires |stages| == |s.queues| && Enabled(s, e)
    ensures var s' := Next(stages, s, e);
            && |s'.queues| == |s.queues| && s.admitted <= s'.admitted
            && (forall task :: task in s'.pushing ==> task in s.pushing || FromQueue(s, task))
            && (forall task :: task in s'.confirmed ==> task in s.confirmed || task in s.pushing || FromQueue(s, task))
            && (forall record :: record in s'.finished ==>
                  record in s.finished || (|stages| > 0 && FromQueue(s, Task(|stages| - 1, record))))
  {
  }

  predicate FromQueue(s: Line, task: Task) {
    task.stage < |s.queues| && task.record in s.queues[task.stage]
  }

  lemma {:induction false} TaskStaysProcessed(stages: seq<Fields -> Fields>, s: Line, s': Line, task: Task)
    requires |stages| == |s.queues| && Genuine(stages, s) && s.admitted <= s'.admitted
    requires task in s.pushing || task in s.confirmed || FromQueue(s, task)
    ensures ProcessedTask(stages, s', task)
  {
    hide Processed;
    assert ProcessedTask(stages, s, task);
    ProcessedGrows(stages, s, s', task.stage, task.record);
  }

  lemma {:induction false} TasksStayGenuine(stages: seq<Fields -> Fields>, s: Line, e: Event)
    requires |stages| == |s.queues| && Enabled(s, e) && Genuine(stages, s)
    ensures GenuineTasks(stages, Next(stages, s, e))
  {
    var s' := Next(stages, s, e);
    TasksOfStep(stages, s, e);
    hide Next;
    hide Genuine;
    hide ProcessedTask;
    hide FromQueue;
    forall task | task in s'.pushing || task in s'.confirmed ensures ProcessedTask(stages, s', task) {
      TaskStaysProcessed(stages, s, s', task);
    }
    forall record | record in s'.finished ensures |stages| > 0
      && ProcessedTask(stages, s', Task(|stages| - 1, record)) {
      FinishedStaysProcessed(stages, s, s', record);
    }
  }

  lemma {:induction false} FinishedStaysProcessed(stages: seq<Fields -> Fields>, s: Line, s': Line, record: Fields)
    requires |stages| == |s.queues| && Genuine(stages, s) && s.admitted <= s'.admitted
    requires record in s.finished || (|stages| > 0 && FromQueue(s, Task(|stages| - 1, record)))
    ensures |stages| > 0 && ProcessedTask(stages, s', Task(|stages| - 1, record))
  {
    hide Processed;
    assert ProcessedTask(stages, s, Task(|stages| - 1, record));
    ProcessedGrows(stages, s, s', |stages| - 1, record);
  }

  lemma {:induction false} StepKeepsGenuine(stages: seq<Fields -> Fields>, s: Line, e: Event)
    requires |stages| == |s.queues| && Enabled(s, e) && Genuine(stages, s)
    ensures Genuine(stages, Next(stages, s, e))
  {
    var s' := Next(stages, s, e);
    TasksOfStep(stages, s, e);
    TasksStayGenuine(stages, s, e);
    hide Next;
    hide Processed;
    forall k: nat, record | k < |s'.queues| && record in s'.queues[k] ensures Processed(stages, s', k, record) {
      AddedIsProcessed(stages, s, e, k, record);
    }
    hide GenuineTasks;
  }

  /** At least once, and nothing but that: for any number of stages, under any interleaving
      of deliveries, redeliveries, failed pushes, lost replies and failed acknowledgements,
      every admitted record, with exactly what the stages passed so far add to it, sits in
      some queue until the last stage has finished it; whatever a stage answered "ok" for
      is safe behind that stage; and the queues hold nothing else. */
  lemma {:induction false} NothingIsLost(stages: seq<Fields -> Fields>, events: seq<Event>)
    requires IsRun(stages, Empty(|stages|), events)
    ensures Invariant(stages, After(stages, Empty(|stages|), events))
    ensures Genuine(stages, After(stages, Empty(|stages|), events))
    decreases |events|
  {
    hide Invariant;
    hide Genuine;
    hide Next;
    if events == [] {
      EmptyIsGood(stages);
    } else {
      var n := |events| - 1;
      NothingIsLost(stages, events[..n]);
      StepKeepsInvariant(stages, After(stages, Empty(|stages|), events[..n]), events[n]);
      StepKeepsGenuine(stages, After(stages, Empty(|stages|), events[..n]), events[n]);
    }
  }

  lemma EmptyIsGood(stages: seq<Fields -> Fields>)
    ensures Invariant(stages, Empty(|stages|)) && Genuine(stages, Empty(|stages|))
  {
  }

  /** With stages that only add fields, every record in a queue or finished extends an
      admitted one. */
  lemma {:induction false} RecordsExtendAdmitted(stages: seq<Fields -> Fields>, s: Line, k: nat, record: Fields)
    requires forall i :: 0 <= i < |stages| ==> OnlyAdds(stages[i])
    requires k <= |stages| && Processed(stages, s, k, record)
    ensures exists r :: r in s.admitted && Extends(record, r)
  {
    var r :| r in s.admitted && FormOf(stages, k, record, r);
    assert forall i :: 0 <= i < |stages[0..k]| ==> stages[0..k][i] == stages[i];
    RecordOnlyGrows(stages[0..k], r);
  }

  lemma {:induction false} RunExtends(stages: seq<Fields -> Fields>, s: Line, events: seq<Event>, e: Event)
    requires |stages| == |s.queues| && IsRun(stages, s, events) && Enabled(After(stages, s, events), e)
    ensures IsRun(stages, s, events + [e])
    ensures After(stages, s, events + [e]) == Next(stages, After(stages, s, events), e)
  {
    assert (events + [e])[..|events|] == events;
  }

  lemma {:induction false} RunsConcat(stages: seq<Fields -> Fields>, s: Line, a: seq<Event>, b: seq<Event>)
    requires |stages| == |s.queues| && IsRun(stages, s, a) && IsRun(stages, After(stages, s, a), b)
    ensures IsRun(stages, s, a + b) && After(stages, s, a + b) == After(stages, After(stages, s, a), b)
    decreases |b|
  {
    hide Next;
    hide Enabled;
    if b == [] {
      assert a + b == a;
    } else {
      var n := |b| - 1;
      RunsConcat(stages, s, a, b[..n]);
      RunExtends(stages, s, a + b[..n], b[n]);
      assert a + b == a + b[..n] + [b[n]];
    }
  }

  /** One event after the other. */
  ghost predicate Steps(stages: seq<Fields -> Fields>, s: Line, e: Event, s': Line) {
    |stages| == |s.queues| && Enabled(s, e) && s' == Next(stages, s, e)
  }

  lemma {:induction false} RunOf(stages: seq<Fields -> Fields>, s: Line, events: seq<Event>, mid: Line, e: Event,
        s': Line)
    requires |stages| == |s.queues| && IsRun(stages, s, events) && After(stages, s, events) == mid
    requires Steps(stages, mid, e, s')
    ensures IsRun(stages, s, events + [e]) && After(stages, s, events + [e]) == s'
  {
    hide Next;
    RunExtends(stages, s, events, e);
  }

  lemma Delivering(stages: seq<Fields -> Fields>, s: Line, task: Task)
    requires |stages| == |s.queues| && task.stage + 1 < |stages| && task.record in s.queues[task.stage]
    ensures Steps(stages, s, Delivered(task), s.(pushing := s.pushing + multiset{task}))
  {
  }

  lemma Pushing(stages: seq<Fields -> Fields>, s: Line, pushing: multiset<Task>, task: Task)
    requires |stages| == |s.queues| && task.stage + 1 < |stages| && s.pushing == pushing + multiset{task}
    ensures Steps(stages, s, PushDone(task, true, true), s.(
              pushing := pushing, acks := s.acks + multiset{task}, confirmed := s.confirmed + {task},
              queues :=
                s.queues[task.stage + 1 := s.queues[task.stage + 1] + multiset{stages[task.stage](task.record)}]))
  {
    assert s.pushing - multiset{task} == pushing;
  }

  lemma Acknowledging(stages: seq<Fields -> Fields>, s: Line, acks: multiset<Task>, task: Task)
    requires |stages| == |s.queues| && task.stage < |stages| && s.acks == acks + multiset{task}
    ensures Steps(stages, s, AckDone(task, true), s.(
              acks := acks, queues := s.queues[task.stage := s.queues[task.stage] - multiset{task.record}]))
  {
    assert s.acks - multiset{task} == acks;
  }

  /** A good step through one stage: delivered, pushed, acknowledged. */
  lemma {:induction false} PassStage(stages: seq<Fields -> Fields>, s: Line, k: nat, record: Fields)
    returns (events: seq<Event>)
    requires |stages| == |s.queues| && k + 1 < |stages| && record in s.queues[k]
    ensures IsRun(stages, s, events)
    ensures After(stages, s, events) ==
            s.(queues := s.queues[k + 1 := s.queues[k + 1] + multiset{stages[k](record)}]
                                 [k := s.queues[k] - multiset{record}],
               confirmed := s.confirmed + {Task(k, record)})
  {
    var task := Task(k, record);
    var s1 := s.(pushing := s.pushing + multiset{task});
    var s2 := s.(acks := s.acks + multiset{task}, confirmed := s.confirmed + {task},
                 queues := s.queues[k + 1 := s.queues[k + 1] + multiset{stages[k](record)}]);
    var s3 := s2.(acks := s.acks, queues := s2.queues[k := s2.queues[k] - multiset{record}]);
    Delivering(stages, s, task);
    Pushing(stages, s1, s.pushing, task);
    Acknowledging(stages, s2, s.acks, task);
    hide Steps;
    RunOf(stages, s, [], s, Delivered(task), s1);
    RunOf(stages, s, [] + [Delivered(task)], s1, PushDone(task, true, true), s2);
    RunOf(stages, s, [] + [Delivered(task)] + [PushDone(task, true, true)], s2, AckDone(task, true), s3);
    events := [] + [Delivered(task)] + [PushDone(task, true, true)] + [AckDone(task, true)];
  }

  /** A good step through the last stage: delivered, acknowledged. */
  lemma {:induction false} PassLast(stages: seq<Fields -> Fields>, s: Line, record: Fields) returns (events: seq<Event>)
    requires |stages| == |s.queues| > 0 && record in s.queues[|stages| - 1]
    ensures IsRun(stages, s, events)
    ensures var k := |stages| - 1;
            After(stages, s, events) ==
            s.(queues := s.queues[k := s.queues[k] - multiset{record}], finished := s.finished + {record},
               confirmed := s.confirmed + {Task(k, record)})
  {
    var task := Task(|stages| - 1, record);
    var s1 := s.(acks := s.acks + multiset{task}, confirmed := s.confirmed + {task}, finished := s.finished + {record});
    var s2 := s1.(acks := s.acks, queues := s.queues[task.stage := s.queues[task.stage] - multiset{record}]);
    assert Steps(stages, s, Delivered(task), s1);
    Acknowledging(stages, s1, s.acks, task);
    hide Steps;
    RunOf(stages, s, [], s, Delivered(task), s1);
    RunOf(stages, s, [] + [Delivered(task)], s1, AckDone(task, true), s2);
    events := [] + [Delivered(task)] + [AckDone(task, true)];
  }

  /** A good passage from stage k on takes one copy of the record out of the queue and ends
      with the record finished, with what the stages on the way add to it. */
  lemma {:induction false} Passage(stages: seq<Fields -> Fields>, s: Line, k: nat, record: Fields)
    returns (events: seq<Event>)
    requires |stages| == |s.queues| && k < |stages| && record in s.queues[k]
    ensures IsRun(stages, s, events)
    ensures var s' := After(stages, s, events);
            && s'.queues == s.queues[k := s.queues[k] - multiset{record}]
            && s'.finished == s.finished + {Form(stages, k, |stages| - 1, record)} && s'.admitted == s.admitted
            && s'.pushing == s.pushing && s'.acks == s.acks
    decreases |stages| - k
  {
    hide IsRun;
    hide After;
    hide Form;
    FormNext(stages, k, k, record);
    if k + 1 == |stages| {
      events := PassLast(stages, s, record);
    } else {
      var first := PassStage(stages, s, k, record);
      var mid, pushed := After(stages, s, first), stages[k](record);
      var rest := Passage(stages, mid, k + 1, pushed);
      RunsConcat(stages, s, first, rest);
      events := first + rest;
      FormSplits(stages, k, k + 1, |stages| - 1, record);
      assert s.queues[k + 1] + multiset{pushed} - multiset{pushed} == s.queues[k + 1];
    }
  }

  /** Whatever the state of the line, an admitted record can pass all its stages, and ends
      finished, with all that they add to it, and every queue as it was. */
  lemma {:induction false} GoodPassage(stages: seq<Fields -> Fields>, s: Line, record: Fields)
    returns (events: seq<Event>)
    requires |stages| == |s.queues| > 0
    ensures IsRun(stages, s, [Admitted(record)] + events)
    ensures var s' := After(stages, s, [Admitted(record)] + events);
            && s'.queues == s.queues && s'.admitted == s.admitted + {record}
            && s'.finished == s.finished + {Through(stages[..|stages| - 1], record)}
            && s'.pushing == s.pushing && s'.acks == s.acks
  {
    RunExtends(stages, s, [], Admitted(record));
    assert [] + [Admitted(record)] == [Admitted(record)];
    hide IsRun;
    hide After;
    var mid := After(stages, s, [Admitted(record)]);
    events := Passage(stages, mid, 0, record);
    RunsConcat(stages, s, [Admitted(record)], events);
    assert stages[0..|stages| - 1] == stages[..|stages| - 1];
    assert s.queues[0] + multiset{record} - multiset{record} == s.queues[0];
  }

  /** Setting one field, whatever its value depends on, is a stage that only adds. */
  lemma PutOnlyAdds(name: string, value: Fields -> Value)
    ensures OnlyAdds(fields => Put(fields, name, value(fields)))
  {
    var stage := (fields: Fields) => Put(fields, name, value(fields));
    forall fields ensures Extends(stage(fields), fields) {
      assert stage(fields) == Put(fields, name, value(fields));
    }
    assert OnlyAdds(stage);
  }
}
