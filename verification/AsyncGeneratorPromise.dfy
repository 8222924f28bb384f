/** The promise of `async_generator` with the program's own fields. Each method is one atomic operation of the
    producer's yield operation or of the consumer's advance operation, and is proved to be the step of the
    machine in `AsyncGenerator`. The machine knows where each coroutine is; the program knows only the shared
    variable and what its calls have returned. The whole calls at the end of the class show that this
    is enough to take the right branches. */
module AsyncGeneratorPromises {
  import opened AsyncGenerator

  /** Where a yield leaves the producer. */
  datatype YieldOutcome = IsSuspended | GoesOn | IsDestroyed

  predicate IsOutcome(r: YieldOutcome, p: Producer)
  {
    match r
    case IsSuspended => p.Suspended?
    case GoesOn => p.Running?
    case IsDestroyed => p.Destroyed?
  }

  class Promise {
    var state: Shared
    /** `m_currentValue`: null at the end. */
    var currentValue: Option<int>
    /** Whether `m_consumerCoroutine` has been set. */
    var consumerCoroutine: bool
    ghost var s: State

    ghost predicate Valid()
      reads this
    {
      Reachable(s) && state == s.shared && currentValue == s.current && consumerCoroutine == s.hasConsumer
    }

    constructor ()
      ensures Valid() && s == Init()
    {
      state, currentValue, consumerCoroutine := ValueReadyProducerSuspended, None, false;
      s := Init();
      new;
      assert Reaches(Init(), [], s);
    }

    ghost method Advance(a: Action)
      requires Reachable(s) && Enabled(s, a)
      modifies this`s
      ensures Reachable(s) && s == Apply(old(s), a)
    {
      StepKeepsReachable(s, a);
      s := Apply(s, a);
    }

    // ---------------------------------------------------------------- the producer

    method YieldValue(v: int)
      requires Valid() && s.producer.Running?
      modifies this`s, this`currentValue
      ensures Valid() && s == Apply(old(s), Yield(v))
      ensures s.producer.YieldLoad? && s.yielded == old(s).yielded + [v] && s.finished == old(s).finished
    {
      currentValue := Some(v);
      Advance(Yield(v));
    }

    method FinalSuspend()
      requires Valid() && s.producer.Running?
      modifies this`s, this`currentValue
      ensures Valid() && s == Apply(old(s), Finish)
      ensures s.producer.YieldLoad? && s.yielded == old(s).yielded && s.finished
    {
      currentValue := None;
      Advance(Finish);
    }

    /** The loads of the state by the producer: on yielding, and after having resumed the consumer. The
        asserts of the program hold. */
    method LoadInYield() returns (currentState: Shared)
      requires Valid() && (s.producer.YieldLoad? || s.producer.YieldReload? || s.producer.AwaitReload?)
      modifies this`s
      ensures Valid() && s == Apply(old(s), ProducerStep) && currentState == state == old(state)
      ensures old(s).producer.YieldLoad? ==>
                !currentState.ValueReadyProducerActive? && !currentState.ValueReadyProducerSuspended?
      ensures !old(s).producer.YieldLoad? ==> !currentState.ValueNotReadyConsumerActive? && !currentState.ValueReadyProducerSuspended?
      ensures s.yielded == old(s).yielded && s.finished == old(s).finished
      ensures s.producer == (if old(s).producer.AwaitReload?
                             then if currentState.ValueNotReadyConsumerSuspended? then Running
                                  else if currentState.ValueReadyProducerActive? then CasActive else DestroySelf
                             else if old(s).producer.YieldLoad? && currentState.ValueNotReadyConsumerSuspended? then YieldStore
                             else AwaitYield(currentState))
    {
      ReachableInv(s);
      hide Inv;
      currentState := state;
      ProducerSees(s);
      Advance(ProducerStep);
    }

    /** The store before the consumer is resumed. */
    method StoreProducerActive()
      requires Valid() && (s.producer.YieldStore? || s.producer.AwaitStore?)
      modifies this`s, this`state
      ensures Valid() && s == Apply(old(s), ProducerStep)
      ensures s.yielded == old(s).yielded && s.finished == old(s).finished
      ensures s.producer == if old(s).producer.YieldStore? then YieldResume else AwaitResume
    {
      state := ValueReadyProducerActive;
      Advance(ProducerStep);
    }

    /** The compare-and-swap by which the producer suspends itself. When it fails, the consumer has asked for
        the next value or the generator is gone. */
    method TrySuspendProducer(expected: Shared) returns (swapped: bool, currentState: Shared)
      requires Valid() && (s.producer.CasNotReady? || s.producer.CasActive?)
      requires expected == if s.producer.CasNotReady? then ValueNotReadyConsumerActive else ValueReadyProducerActive
      modifies this`s, this`state
      ensures Valid() && s == Apply(old(s), ProducerStep)
      ensures currentState == old(state) && (swapped <==> old(state) == expected) && (swapped <==> s.producer.Suspended?)
      ensures swapped ==> state.ValueReadyProducerSuspended?
      ensures !swapped ==> currentState.ValueNotReadyConsumerSuspended? || currentState.Cancelled?
      ensures s.yielded == old(s).yielded && s.finished == old(s).finished
      ensures !swapped ==> s.producer == if currentState.Cancelled? then DestroySelf
                                         else if old(s).producer.CasNotReady? then AwaitStore else Running
    {
      ReachableInv(s);
      ProducerSees(s);
      hide Inv;
      currentState, swapped := state, state == expected;
      if swapped {
        state := ValueReadyProducerSuspended;
      }
      Advance(ProducerStep);
    }

    // ---------------------------------------------------------------- the consumer

    /** The load in the constructor of the advance operation. */
    method LoadInAdvance() returns (initialState: Shared)
      requires Valid() && s.consumer.Active?
      modifies this`s
      ensures Valid() && s == Apply(old(s), Action.Advance) && initialState == state == old(state)
      ensures initialState.ValueReadyProducerActive? || initialState.ValueReadyProducerSuspended?
      ensures s.seen == old(s).seen && s.consumer == if initialState.ValueReadyProducerSuspended? then AdvanceStore else Advancing(initialState)
    {
      ReachableInv(s);
      hide Inv;
      ConsumerSees(s);
      initialState := state;
      Advance(Action.Advance);
    }

    /** The store before the producer is resumed. */
    method StoreConsumerActive()
      requires Valid() && (s.consumer.AdvanceStore? || s.consumer.WaitStore?)
      modifies this`s, this`state
      ensures Valid() && s == Apply(old(s), ConsumerStep)
      ensures s.seen == old(s).seen && s.consumer == if old(s).consumer.AdvanceStore? then AdvanceResume else WaitResume
    {
      state := ValueNotReadyConsumerActive;
      Advance(ConsumerStep);
    }

    /** The load after the producer was resumed. */
    method ReloadInAdvance() returns (currentState: Shared)
      requires Valid() && (s.consumer.AdvanceReload? || s.consumer.WaitReload?)
      modifies this`s
      ensures Valid() && s == Apply(old(s), ConsumerStep) && currentState == state == old(state)
      ensures currentState.ValueNotReadyConsumerActive? || currentState.ValueReadyProducerSuspended?
      ensures s.seen == old(s).seen
      ensures s.consumer == (if old(s).consumer.AdvanceReload? then Advancing(currentState)
                             else if currentState.ValueReadyProducerSuspended? then Read else CasWaitNotReady)
    {
      ReachableInv(s);
      hide Inv;
      ConsumerSees(s);
      currentState := state;
      Advance(ConsumerStep);
    }

    /** The start of the consumer's `await_suspend`. */
    method SetConsumer(initialState: Shared)
      requires Valid() && s.consumer == Advancing(initialState)
      requires initialState.ValueReadyProducerActive? || initialState.ValueNotReadyConsumerActive?
      modifies this`s, this`consumerCoroutine
      ensures Valid() && s == Apply(old(s), AwaitAdvance)
      ensures s.seen == old(s).seen && s.consumer == if initialState.ValueReadyProducerActive? then CasWaitActive else CasWaitNotReady
    {
      consumerCoroutine := true;
      Advance(AwaitAdvance);
    }

    /** The compare-and-swaps by which the consumer suspends itself. When one fails, the producer has
        suspended first. */
    method TrySuspendConsumer(expected: Shared) returns (suspended: bool, currentState: Shared)
      requires Valid() && (s.consumer.CasWaitActive? || s.consumer.CasWaitNotReady?)
      requires expected == if s.consumer.CasWaitActive? then ValueReadyProducerActive else ValueNotReadyConsumerActive
      modifies this`s, this`state
      ensures Valid() && s == Apply(old(s), ConsumerStep)
      ensures currentState == old(state) && (suspended <==> old(state) == expected) && (suspended <==> s.consumer.Waiting?)
      ensures suspended ==> state.ValueNotReadyConsumerSuspended?
      ensures !suspended ==> currentState.ValueReadyProducerSuspended?
      ensures s.seen == old(s).seen && (!suspended ==> s.consumer == if old(s).consumer.CasWaitActive? then WaitStore else Read)
    {
      ReachableInv(s);
      hide Inv;
      ConsumerSees(s);
      currentState, suspended := state, state == expected;
      if suspended {
        state := ValueNotReadyConsumerSuspended;
      }
      Advance(ConsumerStep);
    }

    /** `await_resume`: the value, or the end. */
    method ReadValue() returns (v: Option<int>)
      requires Valid() && s.consumer.Read?
      modifies this`s
      ensures Valid() && s == Apply(old(s), ConsumerStep)
      ensures if v.Some? then s.seen == old(s).seen + [v.value] && s.seen == s.yielded
              else s.consumer.AtEnd? && s.finished && s.seen == old(s).seen == s.yielded
      ensures s.consumer == if v.Some? then Active else AtEnd
    {
      ReachableInv(s);
      v := currentValue;
      Advance(ConsumerStep);
    }

    /** `request_cancellation`: whether the caller has to destroy the producer. */
    method RequestCancellation() returns (destroy: bool)
      requires Valid() && Enabled(s, DestroyGenerator)
      modifies this`s, this`state
      ensures Valid() && s == Apply(old(s), DestroyGenerator)
      ensures !old(state).ValueNotReadyConsumerSuspended? && !old(state).Cancelled?
      ensures destroy <==> old(state).ValueReadyProducerSuspended?
      ensures s.consumer == if destroy then DestroyProducer else Gone
      ensures destroy ==> s.producer.Suspended?
    {
      ReachableInv(s);
      hide Inv;
      ConsumerSees(s);
      var previousState := state;
      state := Cancelled;
      destroy := previousState == ValueReadyProducerSuspended;
      Advance(DestroyGenerator);
    }

    // ---------------------------------------------------------------- resuming, and `await_ready`

    /** `m_consumerCoroutine.resume()`: the consumer was suspended. */
    method ResumeConsumer()
      requires Valid() && (s.producer.YieldResume? || s.producer.AwaitResume?)
      modifies this`s
      ensures Valid() && s == Apply(old(s), ProducerStep) && old(s).consumer.Waiting? && s.consumer.Read?
      ensures s.producer == (if old(s).producer.YieldResume? then YieldReload else AwaitReload)
      ensures s.yielded == old(s).yielded && s.finished == old(s).finished
    {
      ReachableInv(s);
      hide Inv;
      Advance(ProducerStep);
      ReachableInv(s);
      ResumesSuspended(old(s));
    }

    /** `m_producerCoroutine.resume()`: the producer was suspended, and not at its end. */
    method ResumeProducer()
      requires Valid() && (s.consumer.AdvanceResume? || s.consumer.WaitResume?)
      modifies this`s
      ensures Valid() && s == Apply(old(s), ConsumerStep) && old(s).producer.Suspended? && !old(s).finished
      ensures s.consumer == (if old(s).consumer.AdvanceResume? then AdvanceReload else WaitReload) && s.seen == old(s).seen
    {
      ReachableInv(s);
      hide Inv;
      Advance(ConsumerStep);
      ReachableInv(s);
      ResumesSuspended(old(s));
    }

    /** The yield operation's `await_ready`, and the branch of its `await_suspend`. */
    method AwaitReady(seen: Shared) returns (ready: bool)
      requires Valid() && s.producer == AwaitYield(seen)
      modifies this`s
      ensures Valid() && s == Apply(old(s), ProducerStep) && (ready <==> seen.ValueNotReadyConsumerSuspended?)
      ensures !seen.ValueReadyProducerSuspended? && (ready ==> !s.finished)
      ensures s.producer == match seen
                            case ValueNotReadyConsumerSuspended => Running
                            case ValueNotReadyConsumerActive => CasNotReady
                            case ValueReadyProducerActive => CasActive
                            case _ => DestroySelf
      ensures s.yielded == old(s).yielded && s.finished == old(s).finished
    {
      ready := seen == ValueNotReadyConsumerSuspended;
      Advance(ProducerStep);
      ReachableInv(s);
    }

    /** `producer.destroy()`, by the producer itself. */
    method DestroyProducerFrame()
      requires Valid() && s.producer.DestroySelf?
      modifies this`s
      ensures Valid() && s == Apply(old(s), ProducerStep) && s.producer.Destroyed? && s.destroyed == 1
      ensures s.yielded == old(s).yielded && s.finished == old(s).finished
    {
      Advance(ProducerStep);
      ReachableInv(s);
    }

    /** The advance operation's `await_ready`, when the next value is there. */
    method ReadyAtOnce()
      requires Valid() && s.consumer == Advancing(ValueReadyProducerSuspended)
      modifies this`s
      ensures Valid() && s == Apply(old(s), AwaitAdvance) && s.consumer.Read? && s.seen == old(s).seen
    {
      Advance(AwaitAdvance);
    }

    // ---------------------------------------------------------------- whole calls

    /** Any steps of the other coroutine: a caller knows no more than the contract. */
    method OtherRuns(ghost producers: bool)
      requires Valid()
      modifies this
      ensures Valid() && OneRan(producers, old(s), s)
    {
      NobodyRan(producers, s);
    }

    method ProducerPause()
      requires Valid() && !s.producer.Suspended?
      modifies this
      ensures Valid() && s.producer == old(s).producer && s.yielded == old(s).yielded && s.finished == old(s).finished
    {
      hide OneRan, Inv;
      ghost var before := s;
      ReachableInv(s);
      OtherRuns(false);
      OtherIsLeft(false, before, s);
    }

    method ConsumerPause()
      requires Valid() && !s.consumer.Waiting?
      modifies this
      ensures Valid() && s.consumer == old(s).consumer && s.seen == old(s).seen
    {
      hide OneRan, Inv;
      ghost var before := s;
      ReachableInv(s);
      OtherRuns(true);
      OtherIsLeft(true, before, s);
    }

    /** `co_yield v`, whatever the consumer does meanwhile. The producer goes on only when the consumer has seen
        the value and asked for another, unless the generator is being destroyed, and is destroyed only then. */
    method CoYield(v: int) returns (r: YieldOutcome)
      requires Valid() && s.producer.Running?
      modifies this
      ensures Valid() && s.yielded == old(s).yielded + [v] && IsOutcome(r, s.producer)
      ensures r.IsSuspended? ==> state.ValueReadyProducerSuspended?
      ensures r.GoesOn? && !state.Cancelled? ==> s.seen == s.yielded
      ensures r.IsDestroyed? ==> state.Cancelled? && s.destroyed == 1
    {
      hide Valid, Apply, Enabled;
      YieldValue(v);
      ProducerPause();
      r := HandOff();
      WhereYieldEnds(r);
    }

    lemma WhereYieldEnds(r: YieldOutcome)
      requires Valid() && IsOutcome(r, s.producer)
      ensures r.GoesOn? && !state.Cancelled? ==> s.seen == s.yielded
      ensures r.IsDestroyed? ==> state.Cancelled? && s.destroyed == 1
    {
      ReachableInv(s);
    }

    /** The end of the coroutine: it never goes on from there. */
    method CoReturn() returns (r: YieldOutcome)
      requires Valid() && s.producer.Running?
      modifies this
      ensures Valid() && s.yielded == old(s).yielded && s.finished && IsOutcome(r, s.producer) && !r.GoesOn?
      ensures r.IsSuspended? ==> state.ValueReadyProducerSuspended?
      ensures r.IsDestroyed? ==> state.Cancelled? && s.destroyed == 1
    {
      hide Valid, Apply, Enabled;
      FinalSuspend();
      ProducerPause();
      r := HandOff();
      WhereYieldEnds(r);
    }

    /** `internal_yield_value` and the yield operation it returns. */
    method HandOff() returns (r: YieldOutcome)
      requires Valid() && s.producer.YieldLoad?
      modifies this
      ensures Valid() && s.yielded == old(s).yielded && IsOutcome(r, s.producer) && (old(s).finished ==> !r.GoesOn?)
      ensures s.finished == old(s).finished && (r.IsSuspended? ==> state.ValueReadyProducerSuspended?)
    {
      hide Valid, Apply, Enabled;
      var currentState := LoadInYield();
      if currentState == ValueNotReadyConsumerSuspended {
        ProducerPause();
        StoreProducerActive();
        ProducerPause();
        ResumeConsumer();
        ProducerPause();
        currentState := LoadInYield();
      }
      var ready := AwaitReady(currentState);
      if ready {
        return GoesOn;
      }
      r := SuspendProducer(currentState);
    }

    /** The yield operation's `await_suspend`; its last assert holds. */
    method SuspendProducer(initialState: Shared) returns (r: YieldOutcome)
      requires Valid() && !initialState.ValueNotReadyConsumerSuspended? && !initialState.ValueReadyProducerSuspended?
      requires s.producer == match initialState
                             case ValueNotReadyConsumerActive => CasNotReady
                             case ValueReadyProducerActive => CasActive
                             case _ => DestroySelf
      modifies this
      ensures Valid() && s.yielded == old(s).yielded && IsOutcome(r, s.producer) && (old(s).finished ==> !r.GoesOn?)
      ensures s.finished == old(s).finished && (r.IsSuspended? ==> state.ValueReadyProducerSuspended?)
    {
      hide Valid, Apply, Enabled;
      var currentState, producerSuspended := initialState, false;
      if currentState == ValueNotReadyConsumerActive {
        ProducerPause();
        producerSuspended, currentState := TrySuspendProducer(ValueNotReadyConsumerActive);
        if producerSuspended {
          return IsSuspended;
        }
        if currentState == ValueNotReadyConsumerSuspended {
          ProducerPause();
          StoreProducerActive();
          ProducerPause();
          ResumeConsumer();
          ProducerPause();
          currentState := LoadInYield();
          if currentState == ValueNotReadyConsumerSuspended {
            RunningIsUnfinished();
            return GoesOn;
          }
        }
      }
      if currentState == ValueReadyProducerActive {
        ProducerPause();
        producerSuspended, currentState := TrySuspendProducer(ValueReadyProducerActive);
        if producerSuspended {
          return IsSuspended;
        }
        if currentState == ValueNotReadyConsumerSuspended {
          RunningIsUnfinished();
          return GoesOn;
        }
      }
      assert currentState == Cancelled;
      ProducerPause();
      DestroyProducerFrame();
      return IsDestroyed;
    }

    lemma RunningIsUnfinished()
      requires Valid() && s.producer.Running?
      ensures !s.finished
    {
      ReachableInv(s);
    }

    /** `co_await ++iterator`, whatever the producer does meanwhile: the consumer is suspended, or has read the
        next value or found the end. */
    method CoAdvance() returns (suspended: bool, v: Option<int>)
      requires Valid() && s.consumer.Active?
      modifies this
      ensures Valid() && if suspended then s.consumer.Waiting? && state.ValueNotReadyConsumerSuspended? && s.seen == old(s).seen
                         else if v.Some? then s.consumer.Active? && s.seen == old(s).seen + [v.value] == s.yielded
                         else s.consumer.AtEnd? && s.finished && s.seen == old(s).seen == s.yielded
    {
      hide Valid, Apply, Enabled;
      var initialState := LoadInAdvance();
      if initialState == ValueReadyProducerSuspended {
        ConsumerPause();
        StoreConsumerActive();
        ConsumerPause();
        ResumeProducer();
        ConsumerPause();
        initialState := ReloadInAdvance();
      }
      ConsumerPause();
      suspended, v := false, None;
      if initialState == ValueReadyProducerSuspended {
        ReadyAtOnce();
      } else {
        SetConsumer(initialState);
        suspended := SuspendConsumer(initialState);
      }
      if !suspended {
        ConsumerPause();
        v := ReadValue();
      }
    }

    /** The advance operation's `await_suspend`. */
    method SuspendConsumer(initialState: Shared) returns (suspended: bool)
      requires Valid() && (initialState.ValueReadyProducerActive? || initialState.ValueNotReadyConsumerActive?)
      requires s.consumer == if initialState.ValueReadyProducerActive? then CasWaitActive else CasWaitNotReady
      modifies this
      ensures Valid() && s.seen == old(s).seen
      ensures if suspended then s.consumer.Waiting? && state.ValueNotReadyConsumerSuspended? else s.consumer.Read?
    {
      hide Valid, Apply, Enabled;
      var currentState := initialState;
      if currentState == ValueReadyProducerActive {
        ConsumerPause();
        suspended, currentState := TrySuspendConsumer(ValueReadyProducerActive);
        if suspended {
          return;
        }
        ConsumerPause();
        StoreConsumerActive();
        ConsumerPause();
        ResumeProducer();
        ConsumerPause();
        currentState := ReloadInAdvance();
        if currentState == ValueReadyProducerSuspended {
          return false;
        }
      }
      assert currentState == ValueNotReadyConsumerActive;
      ConsumerPause();
      suspended, currentState := TrySuspendConsumer(ValueNotReadyConsumerActive);
    }
  }

  lemma ResumesSuspended(s: State)
    requires Inv(s)
    ensures s.producer.YieldResume? || s.producer.AwaitResume? ==> s.consumer.Waiting?
    ensures s.consumer.AdvanceResume? || s.consumer.WaitResume? ==> s.producer.Suspended? && !s.finished
  {
  }

  /** What the producer can find when it reads the state. */
  lemma ProducerSees(s: State)
    requires Inv(s)
    ensures s.producer.YieldLoad? ==> !s.shared.ValueReadyProducerActive? && !s.shared.ValueReadyProducerSuspended?
    ensures s.producer.YieldReload? || s.producer.AwaitReload? || s.producer.CasActive? ==>
              !s.shared.ValueNotReadyConsumerActive? && !s.shared.ValueReadyProducerSuspended?
    ensures s.producer.CasNotReady? ==> !s.shared.ValueReadyProducerActive? && !s.shared.ValueReadyProducerSuspended?
  {
  }

  /** What the consumer can find when it reads the state. */
  lemma ConsumerSees(s: State)
    requires Inv(s)
    ensures s.consumer.Active? || s.consumer.CasWaitActive? ==>
              s.shared.ValueReadyProducerActive? || s.shared.ValueReadyProducerSuspended?
    ensures s.consumer.AdvanceReload? || s.consumer.WaitReload? || s.consumer.CasWaitNotReady? ==>
              s.shared.ValueNotReadyConsumerActive? || s.shared.ValueReadyProducerSuspended?
    ensures Enabled(s, DestroyGenerator) ==> !s.shared.ValueNotReadyConsumerSuspended? && !s.shared.Cancelled?
    ensures s.shared.ValueReadyProducerSuspended? ==> s.producer.Suspended?
  {
  }
}
