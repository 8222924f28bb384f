/** `async_generator` without symmetric transfer: the producer coroutine and the consumer that owns the
    generator hand values over through one atomic variable with five values. An action is one atomic
    operation on it, one resumption, or a move of a coroutine body. A coroutine that resumes the other one
    may go on while the other still runs, since that one may have moved to another thread. The
    program's asserts and its unstated duties (resume only what is suspended, touch nothing that was
    destroyed, destroy once) set `broken` when they fail. */
module AsyncGenerator {

  datatype Shared =
    | ValueNotReadyConsumerActive
    | ValueNotReadyConsumerSuspended
    | ValueReadyProducerActive
    | ValueReadyProducerSuspended
    | Cancelled

  datatype Option<T> = None | Some(value: T)

  /** Where the producer is: in its body, in `internal_yield_value`, or in the yield operation's
      `await_suspend`, with the state it last saw. */
  datatype Producer =
    | Suspended
    | Running
    | YieldLoad
    | YieldStore
    | YieldResume
    | YieldReload
    | AwaitYield(seen: Shared)
    | CasNotReady
    | AwaitStore
    | AwaitResume
    | AwaitReload
    | CasActive
    | DestroySelf
    | Destroyed

  /** Where the consumer is: between values, in the constructor of the advance operation, holding that
      operation, in its `await_suspend`, or suspended. */
  datatype Consumer =
    | Active
    | AdvanceStore
    | AdvanceResume
    | AdvanceReload
    | Advancing(seen: Shared)
    | CasWaitActive
    | WaitStore
    | WaitResume
    | WaitReload
    | CasWaitNotReady
    | Waiting
    | Read
    | AtEnd
    /** The generator object was destroyed; its destructor may still have to destroy the producer. */
    | DestroyProducer
    | Gone

  datatype State = State(
    shared: Shared, current: Option<int>, hasConsumer: bool, producer: Producer, consumer: Consumer,
    // what follows only records what happened
    yielded: seq<int>, seen: seq<int>, finished: bool, destroyed: nat, broken: bool)

  datatype Action =
    | Yield(value: int)
    | Finish
    | ProducerStep
    | Advance
    | AwaitAdvance
    | ConsumerStep
    | DestroyGenerator

  function Init(): State
  {
    State(ValueReadyProducerSuspended, None, false, Suspended, Active, [], [], false, 0, false)
  }

  predicate Enabled(s: State, a: Action)
  {
    match a
    case Yield(_) => s.producer.Running?
    case Finish => s.producer.Running?
    case ProducerStep => !s.producer.Suspended? && !s.producer.Running? && !s.producer.Destroyed?
    case Advance => s.consumer.Active?
    case AwaitAdvance => s.consumer.Advancing?
    case ConsumerStep =>
      s.consumer.AdvanceStore? || s.consumer.AdvanceResume? || s.consumer.AdvanceReload? || s.consumer.CasWaitActive?
      || s.consumer.WaitStore? || s.consumer.WaitResume? || s.consumer.WaitReload? || s.consumer.CasWaitNotReady?
      || s.consumer.Read? || s.consumer.DestroyProducer?
    case DestroyGenerator => s.consumer.Active? || s.consumer.Advancing? || s.consumer.AtEnd?
  }

  function Check(s: State, ok: bool): State
  {
    if ok then s else s.(broken := true)
  }

  function ResumeConsumer(s: State, next: Producer): State
  {
    Check(s, s.hasConsumer && s.consumer.Waiting?).(consumer := Read, producer := next)
  }

  function ResumeProducer(s: State, next: Consumer): State
  {
    Check(s, s.producer.Suspended? && !s.finished).(producer := Running, consumer := next)
  }

  function ProducerApply(s: State): State
  {
    match s.producer
    case YieldLoad =>
      var m := s.shared;
      Check(s, !m.ValueReadyProducerActive? && !m.ValueReadyProducerSuspended?)
        .(producer := if m.ValueNotReadyConsumerSuspended? then YieldStore else AwaitYield(m))
    case YieldStore => s.(shared := ValueReadyProducerActive, producer := YieldResume)
    case YieldResume => ResumeConsumer(s, YieldReload)
    case YieldReload => s.(producer := AwaitYield(s.shared))
    case AwaitYield(seen) =>
      // await_ready, then the branches of await_suspend that need no atomic operation
      s.(producer := match seen
                     case ValueNotReadyConsumerSuspended => Running
                     case ValueNotReadyConsumerActive => CasNotReady
                     case ValueReadyProducerActive => CasActive
                     case _ => DestroySelf,
         broken := s.broken || seen.ValueReadyProducerSuspended? || (seen.ValueNotReadyConsumerSuspended? && s.finished))
    case CasNotReady =>
      if s.shared.ValueNotReadyConsumerActive? then s.(shared := ValueReadyProducerSuspended, producer := Suspended)
      else if s.shared.ValueNotReadyConsumerSuspended? then s.(producer := AwaitStore)
      else AfterSuspendFails(s)
    case AwaitStore => s.(shared := ValueReadyProducerActive, producer := AwaitResume)
    case AwaitResume => ResumeConsumer(s, AwaitReload)
    case AwaitReload =>
      if s.shared.ValueNotReadyConsumerSuspended? then Check(s, !s.finished).(producer := Running)
      else AfterSuspendFails(s)
    case CasActive =>
      if s.shared.ValueReadyProducerActive? then s.(shared := ValueReadyProducerSuspended, producer := Suspended)
      else if s.shared.ValueNotReadyConsumerSuspended? then Check(s, !s.finished).(producer := Running)
      else AfterSuspendFails(s)
    case DestroySelf => s.(producer := Destroyed, destroyed := s.destroyed + 1)
    case _ => s
  }

  /** The tail of `await_suspend`: another attempt while the producer counts as active, else the state must
      be cancelled. */
  function AfterSuspendFails(s: State): State
  {
    if s.shared.ValueReadyProducerActive? then s.(producer := CasActive)
    else Check(s, s.shared.Cancelled?).(producer := DestroySelf)
  }

  function ConsumerApply(s: State): State
  {
    match s.consumer
    case AdvanceStore => s.(shared := ValueNotReadyConsumerActive, consumer := AdvanceResume)
    case AdvanceResume => ResumeProducer(s, AdvanceReload)
    case AdvanceReload => s.(consumer := Advancing(s.shared))
    case CasWaitActive =>
      if s.shared.ValueReadyProducerActive? then s.(shared := ValueNotReadyConsumerSuspended, consumer := Waiting)
      else Check(s, s.shared.ValueReadyProducerSuspended?).(consumer := WaitStore)
    case WaitStore => s.(shared := ValueNotReadyConsumerActive, consumer := WaitResume)
    case WaitResume => ResumeProducer(s, WaitReload)
    case WaitReload =>
      if s.shared.ValueReadyProducerSuspended? then s.(consumer := Read)
      else Check(s, s.shared.ValueNotReadyConsumerActive?).(consumer := CasWaitNotReady)
    case CasWaitNotReady =>
      if s.shared.ValueNotReadyConsumerActive? then s.(shared := ValueNotReadyConsumerSuspended, consumer := Waiting)
      else s.(consumer := Read)
    case Read =>
      if s.current.None? then s.(consumer := AtEnd) else s.(consumer := Active, seen := s.seen + [s.current.value])
    case DestroyProducer =>
      Check(s, s.producer.Suspended?).(producer := Destroyed, destroyed := s.destroyed + 1, consumer := Gone)
    case _ => s
  }

  /** Whether the consumer's next step touches the promise, which dies with the producer. */
  function TouchPromise(s: State): State
  {
    Check(s, !s.producer.Destroyed?)
  }

  function Apply(s: State, a: Action): State
    requires Enabled(s, a)
  {
    match a
    case Yield(v) => s.(current := Some(v), yielded := s.yielded + [v], producer := YieldLoad)
    case Finish => s.(current := None, finished := true, producer := YieldLoad)
    case ProducerStep => ProducerApply(s)
    case Advance =>
      TouchPromise(s).(consumer := if s.shared.ValueReadyProducerSuspended? then AdvanceStore else Advancing(s.shared))
    case AwaitAdvance =>
      // await_ready, then the branch of await_suspend
      match s.consumer.seen {
        case ValueReadyProducerSuspended => s.(consumer := Read)
        case ValueReadyProducerActive => s.(hasConsumer := true, consumer := CasWaitActive)
        case _ => Check(s, s.consumer.seen.ValueNotReadyConsumerActive?).(hasConsumer := true, consumer := CasWaitNotReady)
      }
    case ConsumerStep => ConsumerApply(TouchPromise(s))
    case DestroyGenerator =>
      Check(TouchPromise(s), !s.shared.ValueNotReadyConsumerSuspended? && !s.shared.Cancelled?)
        .(shared := Cancelled, consumer := if s.shared.ValueReadyProducerSuspended? then DestroyProducer else Gone)
  }

  // ---------------------------------------------------------------- the invariant

  /** The producer has been asked for a value and has not yet been seen to produce one. */
  predicate IsProducing(p: Producer)
  {
    p.Running? || p.YieldLoad? || p == AwaitYield(ValueNotReadyConsumerActive) || p.CasNotReady?
  }

  /** The producer is past the value it handed over, on the way to a suspension or to its next value. */
  predicate IsLeaving(p: Producer)
  {
    p.YieldReload? || p == AwaitYield(ValueReadyProducerActive) || p.AwaitReload? || p.CasActive?
  }

  /** The consumer knows that a value was asked for, and has yet to find it. */
  predicate IsExpecting(c: Consumer)
  {
    c.AdvanceReload? || c == Advancing(ValueNotReadyConsumerActive) || c.WaitReload? || c.CasWaitNotReady?
  }

  /** The consumer has read the last value and has yet to ask for another. */
  predicate IsIdle(c: Consumer)
  {
    c.Active? || c == Advancing(ValueReadyProducerActive) || c.CasWaitActive? || c.AtEnd?
  }

  /** Which combinations of the shared variable and the two coroutines occur. */
  predicate Agree(m: Shared, p: Producer, c: Consumer)
  {
    match m
    case ValueReadyProducerSuspended =>
      p.Suspended? && (IsIdle(c) || c.AdvanceStore? || c.WaitStore? || IsExpecting(c)
                       || c == Advancing(ValueReadyProducerSuspended) || c.Read?)
    case ValueNotReadyConsumerActive =>
      (p.Suspended? && (c.AdvanceResume? || c.WaitResume?)) || (IsProducing(p) && IsExpecting(c))
    case ValueNotReadyConsumerSuspended =>
      c.Waiting? && (IsProducing(p) || p.YieldStore? || p.AwaitStore? || IsLeaving(p)
                     || p == AwaitYield(ValueNotReadyConsumerSuspended))
    case ValueReadyProducerActive =>
      ((p.YieldResume? || p.AwaitResume?) && c.Waiting?) || (IsLeaving(p) && (c.Read? || IsIdle(c)))
    case Cancelled =>
      || (c.DestroyProducer? && p.Suspended?)
      || (c.Gone? && (p.Destroyed? || p.DestroySelf? || IsProducing(p) || IsLeaving(p) || p == AwaitYield(Cancelled)))
  }

  /** A value, or the end, is in `m_currentValue` that the consumer has not read. */
  predicate IsFresh(m: Shared, p: Producer, c: Consumer)
  {
    match m
    case ValueReadyProducerSuspended => IsExpecting(c) || c == Advancing(ValueReadyProducerSuspended) || c.Read?
    case ValueNotReadyConsumerActive => IsProducing(p) && !p.Running?
    case ValueNotReadyConsumerSuspended => (IsProducing(p) && !p.Running?) || p.YieldStore? || p.AwaitStore?
    case ValueReadyProducerActive => p.YieldResume? || p.AwaitResume? || c.Read?
    case Cancelled => false
  }

  ghost predicate ValuesOk(s: State)
  {
    if s.shared.Cancelled? then s.seen <= s.yielded
    else if IsFresh(s.shared, s.producer, s.consumer) then
      if s.finished then s.current.None? && s.yielded == s.seen
      else s.current.Some? && s.yielded == s.seen + [s.current.value]
    else s.yielded == s.seen
  }

  ghost predicate FinishedOk(s: State)
  {
    && (s.finished ==> !s.producer.Running?)
    && (s.finished && !s.shared.Cancelled? ==> IsFresh(s.shared, s.producer, s.consumer) || s.consumer.AtEnd?)
    && (s.consumer.AtEnd? ==> s.finished)
  }

  ghost predicate Inv(s: State)
  {
    && !s.broken && Agree(s.shared, s.producer, s.consumer) && ValuesOk(s) && FinishedOk(s)
    && s.destroyed == (if s.producer.Destroyed? then 1 else 0)
    && (s.consumer.Waiting? || s.consumer.CasWaitActive? || s.consumer.CasWaitNotReady? ==> s.hasConsumer)
    && (s.consumer.WaitStore? || s.consumer.WaitResume? || s.consumer.WaitReload? ==> s.hasConsumer)
  }

  lemma InitInv()
    ensures Inv(Init())
  {
  }

  lemma BodySteps(s: State, a: Action)
    requires Inv(s) && Enabled(s, a) && (a.Yield? || a.Finish?)
    ensures Inv(Apply(s, a))
  {
    assert s.shared.ValueNotReadyConsumerActive? || s.shared.ValueNotReadyConsumerSuspended? || s.shared.Cancelled?;
  }

  /** The producer in `internal_yield_value`. */
  lemma YieldSteps(s: State)
    requires Inv(s)
    requires s.producer.YieldLoad? || s.producer.YieldStore? || s.producer.YieldResume? || s.producer.YieldReload?
    ensures Inv(ProducerApply(s))
  {
  }

  /** The producer in `await_suspend`, up to the resumption of the consumer. */
  lemma SuspendSteps(s: State)
    requires Inv(s) && (s.producer.AwaitYield? || s.producer.CasNotReady? || s.producer.AwaitStore?)
    ensures Inv(ProducerApply(s))
  {
    hide IsIdle;
  }

  lemma LeaveSteps(s: State)
    requires Inv(s)
    requires s.producer.AwaitResume? || s.producer.AwaitReload? || s.producer.CasActive? || s.producer.DestroySelf?
    ensures Inv(ProducerApply(s))
  {
  }

  lemma AdvanceSteps(s: State)
    requires Inv(s) && (s.consumer.AdvanceStore? || s.consumer.AdvanceResume? || s.consumer.AdvanceReload?)
    ensures Inv(ConsumerApply(TouchPromise(s)))
  {
  }

  lemma WaitSteps(s: State)
    requires Inv(s) && (s.consumer.CasWaitActive? || s.consumer.WaitStore? || s.consumer.WaitResume?)
    ensures Inv(ConsumerApply(TouchPromise(s)))
  {
  }

  lemma ReadSteps(s: State)
    requires Inv(s)
    requires s.consumer.WaitReload? || s.consumer.CasWaitNotReady? || s.consumer.Read? || s.consumer.DestroyProducer?
    ensures Inv(ConsumerApply(TouchPromise(s)))
  {
  }

  lemma OwnerSteps(s: State, a: Action)
    requires Inv(s) && Enabled(s, a) && (a.Advance? || a.AwaitAdvance? || a.DestroyGenerator?)
    ensures Inv(Apply(s, a))
  {
  }

  /** Every step of producer and consumer keeps the invariant; in particular no assert ever fails. */
  lemma StepKeepsInv(s: State, a: Action)
    requires Inv(s) && Enabled(s, a)
    ensures Inv(Apply(s, a))
  {
    hide Inv, ProducerApply, ConsumerApply;
    match a {
      case Yield(_) => BodySteps(s, a);
      case Finish => BodySteps(s, a);
      case ProducerStep =>
        match s.producer {
          case YieldLoad => YieldSteps(s);
          case YieldStore => YieldSteps(s);
          case YieldResume => YieldSteps(s);
          case YieldReload => YieldSteps(s);
          case AwaitYield(_) => SuspendSteps(s);
          case CasNotReady => SuspendSteps(s);
          case AwaitStore => SuspendSteps(s);
          case _ => LeaveSteps(s);
        }
      case ConsumerStep =>
        if s.consumer.AdvanceStore? || s.consumer.AdvanceResume? || s.consumer.AdvanceReload? {
          AdvanceSteps(s);
        } else if s.consumer.CasWaitActive? || s.consumer.WaitStore? || s.consumer.WaitResume? {
          WaitSteps(s);
        } else {
          ReadSteps(s);
        }
      case _ => OwnerSteps(s, a);
    }
  }

  // ---------------------------------------------------------------- whole runs

  ghost predicate Reaches(s: State, run: seq<Action>, s': State)
    decreases |run|
  {
    if run == [] then s == s'
    else Enabled(s, run[0]) && Reaches(Apply(s, run[0]), run[1..], s')
  }

  lemma {:induction false} RunsKeepInv(s: State, run: seq<Action>, s': State)
    requires Inv(s) && Reaches(s, run, s')
    ensures Inv(s')
    decreases |run|
  {
    hide Inv;
    if run != [] {
      StepKeepsInv(s, run[0]);
      RunsKeepInv(Apply(s, run[0]), run[1..], s');
    }
  }

  ghost predicate Reachable(s: State)
  {
    exists run: seq<Action> :: Reaches(Init(), run, s)
  }

  lemma ReachableInv(s: State)
    requires Reachable(s)
    ensures Inv(s)
  {
    hide Inv;
    var run: seq<Action> :| Reaches(Init(), run, s);
    InitInv();
    RunsKeepInv(Init(), run, s);
  }

  lemma {:induction false} OneMore(s: State, run: seq<Action>, s': State, a: Action)
    requires Reaches(s, run, s') && Enabled(s', a)
    ensures Reaches(s, run + [a], Apply(s', a))
    decreases |run|
  {
    hide Apply, Enabled;
    if run == [] {
      assert [a][1..] == [];
      assert Reaches(Apply(s, a), [], Apply(s, a));
      assert run + [a] == [a];
    } else {
      OneMore(Apply(s, run[0]), run[1..], s', a);
      assert (run + [a])[1..] == run[1..] + [a];
    }
  }

  lemma StepKeepsReachable(s: State, a: Action)
    requires Reachable(s) && Enabled(s, a)
    ensures Reachable(Apply(s, a))
  {
    hide Apply, Enabled;
    var run: seq<Action> :| Reaches(Init(), run, s);
    OneMore(Init(), run, s, a);
  }

  /** In every interleaving: no assert fails, nothing is resumed that is not suspended, nothing is touched
      or destroyed after its destruction; the consumer has seen the yielded values in order, each once,
      and at most the latest is still to come; and it sees the end only after all of them. */
  lemma HandOffIsSafe(run: seq<Action>, s: State)
    requires Reaches(Init(), run, s)
    ensures !s.broken
    ensures s.seen <= s.yielded && (!s.shared.Cancelled? ==> |s.yielded| <= |s.seen| + 1)
    ensures s.consumer.Read? && !s.finished ==> s.current.Some? && s.yielded == s.seen + [s.current.value]
    ensures s.consumer.AtEnd? ==> s.finished && s.seen == s.yielded
    ensures s.destroyed <= 1
  {
    InitInv();
    RunsKeepInv(Init(), run, s);
  }

  /** Once the generator object is gone and no step is left to take, the producer's frame has been destroyed,
      unless the producer is still in its body; then its next yield or its end leads to the destruction. */
  lemma CancelledFrameIsDestroyedOnce(run: seq<Action>, s: State)
    requires Reaches(Init(), run, s) && s.consumer.Gone?
    ensures s.shared.Cancelled? && (s.destroyed == 1 <==> s.producer.Destroyed?)
    ensures !Enabled(s, ProducerStep) ==> s.destroyed == 1 || s.producer.Running?
    ensures Enabled(s, ProducerStep) ==> Distance(ProducerApply(s).producer) < Distance(s.producer)
  {
    InitInv();
    RunsKeepInv(Init(), run, s);
  }

  /** How many steps a cancelled producer is away from its destruction. */
  function Distance(p: Producer): nat
  {
    match p
    case YieldLoad => 4
    case YieldReload => 4
    case AwaitReload => 2
    case AwaitYield(_) => 3
    case CasNotReady => 2
    case CasActive => 2
    case DestroySelf => 1
    case _ => 0
  }

  /** A deadlock is impossible: while the consumer waits, the producer has a step, or its body has. */
  lemma WaitingConsumerIsServed(run: seq<Action>, s: State)
    requires Reaches(Init(), run, s) && s.consumer.Waiting?
    ensures s.hasConsumer && (Enabled(s, ProducerStep) || s.producer.Running?)
  {
    InitInv();
    RunsKeepInv(Init(), run, s);
  }

  // ---------------------------------------------------------------- what happens between the steps of a call

  predicate IsProducers(a: Action)
  {
    a.Yield? || a.Finish? || a.ProducerStep?
  }

  /** Only one of the two coroutines has done any steps. */
  ghost predicate OneRan(producers: bool, s: State, s': State)
  {
    exists run: seq<Action> :: Reaches(s, run, s') && forall i :: 0 <= i < |run| ==> IsProducers(run[i]) == producers
  }

  lemma NobodyRan(producers: bool, s: State)
    ensures OneRan(producers, s, s)
  {
    assert Reaches(s, [], s);
  }

  /** While a coroutine is not suspended the other one does not move it on. */
  lemma OtherIsLeft(producers: bool, s: State, s': State)
    requires Inv(s) && OneRan(producers, s, s')
    ensures Inv(s')
    ensures !producers && !s.producer.Suspended? ==>
              s'.producer == s.producer && s'.yielded == s.yielded && s'.finished == s.finished
    ensures producers && !s.consumer.Waiting? ==> s'.consumer == s.consumer && s'.seen == s.seen
  {
    hide Inv, Reaches;
    var run: seq<Action> :| Reaches(s, run, s') && forall i :: 0 <= i < |run| ==> IsProducers(run[i]) == producers;
    RunLeavesOther(producers, s, run, s');
  }

  lemma {:induction false} RunLeavesOther(producers: bool, s: State, run: seq<Action>, s': State)
    requires Inv(s) && Reaches(s, run, s') && forall i :: 0 <= i < |run| ==> IsProducers(run[i]) == producers
    ensures Inv(s')
    ensures !producers && !s.producer.Suspended? ==>
              s'.producer == s.producer && s'.yielded == s.yielded && s'.finished == s.finished
    ensures producers && !s.consumer.Waiting? ==> s'.consumer == s.consumer && s'.seen == s.seen
    decreases |run|
  {
    hide Inv, Apply;
    if run != [] {
      StepKeepsInv(s, run[0]);
      assert IsProducers(run[0]) == producers;
      StepLeavesOther(s, run[0]);
      assert forall i :: 0 <= i < |run[1..]| ==> run[1..][i] == run[i + 1];
      RunLeavesOther(producers, Apply(s, run[0]), run[1..], s');
    }
  }

  lemma StepLeavesOther(s: State, a: Action)
    requires Inv(s) && Enabled(s, a)
    ensures var s' := Apply(s, a);
            && (!IsProducers(a) && !s.producer.Suspended? ==>
                  s'.producer == s.producer && s'.yielded == s.yielded && s'.finished == s.finished)
            && (IsProducers(a) && !s.consumer.Waiting? ==> s'.consumer == s.consumer && s'.seen == s.seen)
  {
  }
}
