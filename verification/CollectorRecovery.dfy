/** The recovery records of the live sink: one for every downtime, with the acknowledgement that ended it. */
module CollectorRecovery {
  import opened Common
  import opened Pairing
  import opened CoveragePoints
  import opened Collector

  predicate ReadyOf(e: Event, v: Venue) {
    e.venue == v && e.body == SubscriptionAck(true)
  }

  predicate DownOf(e: Event, v: Venue) {
    e.venue == v && e.body.VenueDown?
  }

  /** Among the first n records the venue went down and has not been acknowledged as ready since. */
  predicate DownIn(log: seq<Event>, n: nat, v: Venue)
    requires n <= |log|
  {
    exists j :: 0 <= j < n && DownOf(log[j], v) && NotReadySince(log, j, n, v)
  }

  predicate NotReadySince(log: seq<Event>, j: nat, n: nat, v: Venue)
    requires j < n <= |log|
  {
    forall k :: j < k < n ==> !ReadyOf(log[k], v)
  }

  /** The record is the acknowledgement that ends a downtime of its venue. */
  predicate EndsDowntime(log: seq<Event>, p: nat)
    requires p < |log|
  {
    ReadyOf(log[p], log[p].venue) && DownIn(log, p, log[p].venue)
  }

  /** Every recovery record stands right behind an acknowledgement that ends a downtime of its venue. */
  predicate RecoveriesEarned(log: seq<Event>) {
    forall p :: 0 <= p < |log| && log[p].body.OtherOps? ==>
      p > 0 && EndsDowntime(log, p - 1) && log[p] == RecoveryRecord(log[p - 1].venue, log[p].observed)
  }

  /** Behind every acknowledgement that ends a downtime stands a recovery record, unless an error ended the session. */
  predicate RecoveriesGiven(log: seq<Event>, ended: set<Venue>) {
    forall p :: 0 <= p < |log| && EndsDowntime(log, p) && log[p].venue !in ended ==>
      p + 1 < |log| && log[p + 1].body.OtherOps?
  }

  /** What the sink remembers of downtimes is what its log says. */
  predicate RemembersDowntimes(r: Running) {
    forall v: Venue :: v !in r.ended ==> (v in r.sink.down <==> DownIn(r.sink.log, |r.sink.log|, v))
  }

  lemma DownSnoc(log: seq<Event>, e: Event, v: Venue)
    ensures DownIn(log + [e], |log| + 1, v) <==> DownOf(e, v) || (!ReadyOf(e, v) && DownIn(log, |log|, v))
  {
    var more := log + [e];
    if DownIn(more, |log| + 1, v) {
      var j :| 0 <= j < |log| + 1 && DownOf(more[j], v) && NotReadySince(more, j, |log| + 1, v);
      if j < |log| {
        assert !ReadyOf(more[|log|], v);
        assert NotReadySince(log, j, |log|, v) by {
          assert forall k :: j < k < |log| ==> log[k] == more[k];
        }
      }
    }
    if DownOf(e, v) {
      assert more[|log|] == e && NotReadySince(more, |log|, |log| + 1, v);
    } else if !ReadyOf(e, v) && DownIn(log, |log|, v) {
      var j :| 0 <= j < |log| && DownOf(log[j], v) && NotReadySince(log, j, |log|, v);
      assert more[j] == log[j];
      assert NotReadySince(more, j, |log| + 1, v);
    }
  }

  lemma DownInPrefix(log: seq<Event>, added: seq<Event>, n: nat, v: Venue)
    requires n <= |log|
    ensures DownIn(log + added, n, v) <==> DownIn(log, n, v)
  {
    var more := log + added;
    assert forall k :: 0 <= k < n ==> more[k] == log[k];
    if DownIn(more, n, v) {
      var j :| 0 <= j < n && DownOf(more[j], v) && NotReadySince(more, j, n, v);
      assert NotReadySince(log, j, n, v);
    }
    if DownIn(log, n, v) {
      var j :| 0 <= j < n && DownOf(log[j], v) && NotReadySince(log, j, n, v);
      assert NotReadySince(more, j, n, v);
    }
  }

  lemma EndsInPrefix(log: seq<Event>, added: seq<Event>, p: nat)
    requires p < |log|
    ensures EndsDowntime(log + added, p) <==> EndsDowntime(log, p)
  {
    DownInPrefix(log, added, p, log[p].venue);
  }

  /** The record appended is no recovery record. */
  lemma EarnedPlain(log: seq<Event>, e: Event)
    requires RecoveriesEarned(log) && !e.body.OtherOps?
    ensures RecoveriesEarned(log + [e])
  {
    forall p | 0 <= p < |log + [e]| && (log + [e])[p].body.OtherOps?
      ensures p > 0 && EndsDowntime(log + [e], p - 1)
      ensures p > 0 && (log + [e])[p] == RecoveryRecord((log + [e])[p - 1].venue, (log + [e])[p].observed)
    {
      assert log[p].body.OtherOps?;
      EndsInPrefix(log, [e], p - 1);
    }
  }

  lemma EarnedRecovery(log: seq<Event>, observed: int)
    requires RecoveriesEarned(log) && log != [] && EndsDowntime(log, |log| - 1)
    ensures RecoveriesEarned(log + [RecoveryRecord(log[|log| - 1].venue, observed)])
  {
    var added := [RecoveryRecord(log[|log| - 1].venue, observed)];
    forall p | 0 <= p < |log + added| && (log + added)[p].body.OtherOps?
      ensures p > 0 && EndsDowntime(log + added, p - 1)
      ensures p > 0 && (log + added)[p] == RecoveryRecord((log + added)[p - 1].venue, (log + added)[p].observed)
    {
      assert p < |log| ==> log[p].body.OtherOps?;
      EndsInPrefix(log, added, p - 1);
    }
  }

  /** A record that ends no downtime keeps the rule, and so does one that is followed by its recovery record. */
  lemma GivenStep(log: seq<Event>, ended: set<Venue>, added: seq<Event>, after: set<Venue>)
    requires RecoveriesGiven(log, ended) && ended <= after && added != [] && |added| <= 2
    requires EndsDowntime(log + added, |log|) && added[0].venue !in after ==> |added| == 2 && added[1].body.OtherOps?
    requires |added| == 2 ==> !added[1].body.SubscriptionAck?
    ensures RecoveriesGiven(log + added, after)
  {
    var more := log + added;
    forall p | 0 <= p < |more| && EndsDowntime(more, p) && more[p].venue !in after
      ensures p + 1 < |more| && more[p + 1].body.OtherOps?
    {
      if p < |log| {
        EndsInPrefix(log, added, p);
        assert more[p + 1] == log[p + 1];
      }
    }
  }

  /** The venue of a record that reaches the log: whether it ends a downtime is what the sink remembers. */
  lemma RecoversIff(r: Running, i: Input, added: seq<Event>)
    requires RemembersDowntimes(r) && Reaches(r, i) && added != [] && added[0] == i.e
    ensures EndsDowntime(r.sink.log + added, |r.sink.log|) <==> Recovers(r.sink, i.e)
  {
    DownInPrefix(r.sink.log, added, |r.sink.log|, i.e.venue);
  }

  lemma RemembersStep(r: Running, i: Input)
    requires RemembersDowntimes(r) && !i.e.body.OtherOps?
    ensures RemembersDowntimes(Heeded(r, i))
  {
    var after := Heeded(r, i);
    HeededAdds(r, i);
    forall v: Venue | v !in after.ended
      ensures v in after.sink.down <==> DownIn(after.sink.log, |after.sink.log|, v)
    {
      if Reaches(r, i) {
        var added := Additions(r, i);
        DownSnoc(r.sink.log, i.e, v);
        if |added| == 2 {
          DownSnoc(r.sink.log + [i.e], added[1], v);
          assert r.sink.log + added == r.sink.log + [i.e] + [added[1]];
        }
      }
    }
  }

  lemma EarnedStep(r: Running, i: Input)
    requires RemembersDowntimes(r) && RecoveriesEarned(r.sink.log) && !i.e.body.OtherOps?
    ensures RecoveriesEarned(Heeded(r, i).sink.log)
  {
    HeededAdds(r, i);
    if Reaches(r, i) {
      var added, one := Additions(r, i), r.sink.log + [i.e];
      EarnedPlain(r.sink.log, i.e);
      if |added| == 2 {
        assert r.sink.log + added == one + [added[1]];
        if RecoveryReaches(r, i) {
          RecoversIff(r, i, [i.e]);
          EarnedRecovery(one, i.recoveredNs);
        } else {
          EarnedPlain(one, added[1]);
        }
      }
    } else {
      assert Heeded(r, i).sink.log == r.sink.log;
    }
  }

  lemma GivenKept(r: Running, i: Input)
    requires RemembersDowntimes(r) && RecoveriesGiven(r.sink.log, r.ended) && !i.e.body.OtherOps?
    ensures RecoveriesGiven(Heeded(r, i).sink.log, Heeded(r, i).ended)
  {
    HeededAdds(r, i);
    if Reaches(r, i) {
      RecoversIff(r, i, Additions(r, i));
      GivenStep(r.sink.log, r.ended, Additions(r, i), Heeded(r, i).ended);
    } else {
      assert Heeded(r, i).sink.log == r.sink.log;
    }
  }

  /**
   * On every run the recovery records stand exactly behind the acknowledgements that end a downtime, one for each: a
   * later acknowledgement brings none until the venue goes down again. Only an error that ends the venue's session
   * leaves a downtime without its record.
   */
  lemma {:induction false} OneRecoveryPerDowntime(inputs: seq<Input>)
    requires forall i :: i in inputs ==> !i.e.body.OtherOps?
    ensures RecoveriesEarned(Live(inputs).sink.log)
    ensures RecoveriesGiven(Live(inputs).sink.log, Live(inputs).ended)
    ensures RemembersDowntimes(Live(inputs))
  {
    if inputs != [] {
      var front, last := inputs[..|inputs| - 1], inputs[|inputs| - 1];
      OneRecoveryPerDowntime(front);
      EarnedStep(Live(front), last);
      GivenKept(Live(front), last);
      RemembersStep(Live(front), last);
    }
  }
}
