/** A clock of how long a state has been active, which unknown observations neither start nor stop. */
module Clock {
  import opened Common

  datatype ObservedState = Inactive | Active | Unknown

  datatype StateClock = StateClock(state: ObservedState, observedNs: int, activeSince: Option<int>,
      exceeded: Option<bool>)

  function Advance(previous: Option<StateClock>, state: ObservedState, observedNs: int,
                   maxActiveNs: int): Result<StateClock> {
    if observedNs < 1 then Failure("observed_ns must be at least 1")
    else if maxActiveNs < 0 then Failure("max_active_ns must be at least 0")
    else if previous.Some? && observedNs < previous.value.observedNs then Failure("observed_ns cannot move backward")
    else if previous.Some? && observedNs == previous.value.observedNs && state != previous.value.state then
      Failure("different state at same observed_ns")
    else if state.Inactive? then Success(StateClock(state, observedNs, None, Some(false)))
    else
      var before := if previous.Some? then previous.value.activeSince else None;
      var since := if state.Active? && before.None? then Some(observedNs) else before;
      Success(StateClock(state, observedNs, since,
          if since.None? then None else Some(observedNs - since.value > maxActiveNs)))
  }

  // ---------- histories ----------

  datatype Observation = Observation(state: ObservedState, observedNs: int, maxActiveNs: int)

  /** The clock after a history of observations, each of which was accepted. */
  function After(history: seq<Observation>): Result<Option<StateClock>> {
    if history == [] then Success(None)
    else
      var last := history[|history| - 1];
      match After(history[..|history| - 1])
      case Failure(error) => Failure(error)
      case Success(previous) =>
        match Advance(previous, last.state, last.observedNs, last.maxActiveNs)
        case Failure(error) => Failure(error)
        case Success(clock) => Success(Some(clock))
  }

  /** Observation i is active, no inactive one follows it, and none between the last inactive one and it is active. */
  ghost predicate Starts(history: seq<Observation>, i: int) {
    && 0 <= i < |history| && history[i].state.Active?
    && (forall j :: i < j < |history| ==> !history[j].state.Inactive?)
    && (forall j :: 0 <= j < i && history[j].state.Active? ==> exists k :: j < k < i && history[k].state.Inactive?)
  }

  ghost predicate Times(history: seq<Observation>, c: StateClock)
    requires history != []
  {
    var last := history[|history| - 1];
    && c.state == last.state && c.observedNs == last.observedNs
    && (match c.activeSince
        case None => forall i :: !Starts(history, i)
        case Some(t) => exists i :: Starts(history, i) && history[i].observedNs == t)
    && c.exceeded == (if last.state.Inactive? then Some(false)
                      else if c.activeSince.None? then None
                      else Some(last.observedNs - c.activeSince.value > last.maxActiveNs))
  }

  lemma StartsStep(history: seq<Observation>, o: Observation, i: int)
    ensures Starts(history + [o], i) <==>
            if i == |history| then o.state.Active? && forall j :: !Starts(history, j)
            else Starts(history, i) && !o.state.Inactive?
  {
    var more := history + [o];
    assert forall j :: 0 <= j < |history| ==> more[j] == history[j];
    assert more[|history|] == o;
    if i == |history| && o.state.Active? {
      if Starts(more, i) {
        forall j: int | true
          ensures !Starts(history, j)
        {
          if 0 <= j < |history| && history[j].state.Active? {
            assert more[j].state.Active?;
            var k :| j < k < i && more[k].state.Inactive?;
            assert history[k].state.Inactive?;
          }
        }
      } else {
        var j :| 0 <= j < i && more[j].state.Active? && forall k :: j < k < i ==> !more[k].state.Inactive?;
        EarliestStart(history, j);
      }
    } else if 0 <= i < |history| {
      StartsCarry(history, o, i);
    }
  }

  lemma StartsCarry(history: seq<Observation>, o: Observation, i: int)
    requires 0 <= i < |history|
    ensures Starts(history + [o], i) <==> Starts(history, i) && !o.state.Inactive?
  {
    var more := history + [o];
    assert forall j :: 0 <= j < |history| ==> more[j] == history[j];
    assert more[|history|] == o;
    if Starts(more, i) {
      forall j | 0 <= j < i && history[j].state.Active?
        ensures exists k :: j < k < i && history[k].state.Inactive?
      {
        assert more[j].state.Active?;
        var k :| j < k < i && more[k].state.Inactive?;
        assert history[k].state.Inactive?;
      }
    }
    if Starts(history, i) && !o.state.Inactive? {
      forall j | 0 <= j < i && more[j].state.Active?
        ensures exists k :: j < k < i && more[k].state.Inactive?
      {
        assert history[j].state.Active?;
        var k :| j < k < i && history[k].state.Inactive?;
        assert more[k].state.Inactive?;
      }
    }
  }

  /** An active observation that no inactive one follows means that some observation starts the clock. */
  lemma {:induction false} EarliestStart(history: seq<Observation>, j: nat)
    requires j < |history| && history[j].state.Active? && forall k :: j < k < |history| ==> !history[k].state.Inactive?
    ensures exists i :: Starts(history, i)
  {
    if Starts(history, j) {
    } else {
      var i :| 0 <= i < j && history[i].state.Active? && forall k :: i < k < j ==> !history[k].state.Inactive?;
      EarliestStart(history, i);
    }
  }

  /**
   * After any accepted history the clock's start is the first active observation since the last inactive one, and the
   * duration is measured from it; with no such observation there is no start and no verdict.
   */
  lemma {:induction false} ClockMeasuresHistory(history: seq<Observation>)
    requires history != [] && After(history).Success?
    ensures After(history).value.Some? && Times(history, After(history).value.value)
  {
    var n := |history| - 1;
    var front, last := history[..n], history[n];
    assert history == front + [last];
    if front != [] {
      ClockMeasuresHistory(front);
    }
    forall i: int | true
      ensures Starts(history, i) <==>
              if i == n then last.state.Active? && forall j :: !Starts(front, j)
              else Starts(front, i) && !last.state.Inactive?
    {
      StartsStep(front, last, i);
    }
    var c := After(history).value.value;
    if c.activeSince.Some? {
      if last.state.Active? && forall j :: !Starts(front, j) {
        assert Starts(history, n);
      } else {
        var i :| Starts(front, i) && front[i].observedNs == c.activeSince.value;
        assert Starts(history, i);
      }
    }
  }

  /** Observation i is in range and may follow the one before it. */
  predicate Admissible(history: seq<Observation>, i: nat)
    requires i < |history|
  {
    && history[i].observedNs >= 1 && history[i].maxActiveNs >= 0
    && (i > 0 ==>
          || history[i - 1].observedNs < history[i].observedNs
          || (history[i - 1].observedNs == history[i].observedNs && history[i - 1].state == history[i].state))
  }

  /**
   * A history is accepted exactly when its times are positive and never step back, equal times repeat the state, and
   * no limit is negative.
   */
  lemma {:induction false} AcceptedIff(history: seq<Observation>)
    ensures After(history).Success? <==> forall i :: 0 <= i < |history| ==> Admissible(history, i)
    ensures After(history).Success? ==> (After(history).value.None? <==> history == [])
  {
    if history != [] {
      var n := |history| - 1;
      var front := history[..n];
      AcceptedIff(front);
      assert forall i :: 0 <= i < n ==> (Admissible(history, i) <==> Admissible(front, i));
      assert (forall i :: 0 <= i < |history| ==> Admissible(history, i)) <==>
             (forall i :: 0 <= i < n ==> Admissible(history, i)) && Admissible(history, n);
      if front != [] && After(front).Success? {
        ClockMeasuresHistory(front);
        assert front[n - 1] == history[n - 1];
      }
    }
  }

  /** Repeating the last observation with its limit changes nothing, on every accepted history. */
  lemma RepeatingChangesNothing(history: seq<Observation>)
    requires history != [] && After(history).Success?
    ensures After(history + [history[|history| - 1]]) == After(history)
  {
    var last := history[|history| - 1];
    assert (history + [last])[..|history|] == history;
    var previous := After(history[..|history| - 1]).value;
    AdvanceTwice(previous, last.state, last.observedNs, last.maxActiveNs);
    OneMore(history, last);
  }

  lemma AdvanceTwice(previous: Option<StateClock>, state: ObservedState, observedNs: int, maxActiveNs: int)
    requires Advance(previous, state, observedNs, maxActiveNs).Success?
    ensures var c := Advance(previous, state, observedNs, maxActiveNs);
            Advance(Some(c.value), state, observedNs, maxActiveNs) == c
  {
  }

  lemma OneMore(history: seq<Observation>, o: Observation)
    requires After(history).Success?
    ensures After(history + [o])
         == match Advance(After(history).value, o.state, o.observedNs, o.maxActiveNs)
            case Failure(error) => Failure(error)
            case Success(clock) => Success(Some(clock))
  {
    assert (history + [o])[..|history|] == history;
  }

  /**
   * Under a fixed limit an exceeded duration stays exceeded through every accepted history until an inactive
   * observation.
   */
  lemma {:induction false} ExceededStays(history: seq<Observation>, more: seq<Observation>, limit: int)
    requires history != [] && After(history + more).Success? && After(history).Success?
    requires After(history).value.Some? && After(history).value.value.exceeded == Some(true)
    requires history[|history| - 1].maxActiveNs == limit
    requires forall k :: 0 <= k < |more| ==> more[k].maxActiveNs == limit && !more[k].state.Inactive?
    ensures After(history + more).value.Some?
    ensures var c := After(history + more).value.value;
            c.exceeded == Some(true) && c.activeSince == After(history).value.value.activeSince
            && c.activeSince.Some? && c.observedNs - c.activeSince.value > limit
  {
    var start := After(history).value.value;
    if more == [] {
      assert history + more == history;
      ClockMeasuresHistory(history);
    } else {
      var front := more[..|more| - 1];
      assert (history + more)[..|history + more| - 1] == history + front;
      ExceededStays(history, front, limit);
    }
  }
}
