/** metrics/sources/manager.go: what every scrape keeps to, from the events that happened. */
module ScrapeDetails {
  import opened Core
  import opened Scraping

  /** Nothing is given up before the deadline. */
  ghost predicate Patient(c: Config, s: State) {
    && (forall p :: 0 <= p < |s.producers| && s.producers[p].TooLate? ==> s.clock >= c.timeoutTime)
    && (s.collector.Finished? ==> s.clock >= c.timeoutTime || |s.received| >= |s.producers|)
    && (s.collector.Reading? || s.collector.Waiting? ==> s.collector.i == |s.received|)
  }

  lemma StaysPatient(c: Config, s: State, e: Event)
    requires Patient(c, s) && Enabled(c, s, e)
    ensures Patient(c, Apply(c, s, e))
  {
    hide Merge, Bucket;
  }

  /**
   * In every run an answer is late only after the deadline, and the collector ends only after it or with as many
   * answers as there are sources.
   */
  lemma {:induction false} NothingGivenUpEarly(c: Config, n: nat, events: seq<Event>)
    requires Possible(c, Init(c, n), events)
    ensures Patient(c, After(c, Init(c, n), events))
  {
    hide Patient, Apply, Enabled;
    if events == [] {
      InitPatient(c, n);
    } else {
      var m := |events| - 1;
      NothingGivenUpEarly(c, n, events[..m]);
      StaysPatient(c, After(c, Init(c, n), events[..m]), events[m]);
    }
  }

  lemma InitPatient(c: Config, n: nat)
    ensures Patient(c, Init(c, n))
  {}

  /** What source p has to send or has sent is what it answered. */
  ghost predicate Truthful(s: State, events: seq<Event>) {
    forall p: nat :: p < |s.producers| && (s.producers[p].Offering? || s.producers[p].Sent?) ==>
      Answered(p, s.producers[p].answer) in events
  }

  lemma StaysTruthful(c: Config, s: State, events: seq<Event>, e: Event)
    requires Truthful(s, events) && Enabled(c, s, e)
    ensures Truthful(Apply(c, s, e), events + [e])
  {
    hide Merge, Bucket;
    var t := Apply(c, s, e);
    forall p: nat | p < |t.producers| && (t.producers[p].Offering? || t.producers[p].Sent?)
      ensures Answered(p, t.producers[p].answer) in events + [e]
    {
      assert e in events + [e];
      if s.producers[p].Offering? || s.producers[p].Sent? {
        assert Answered(p, s.producers[p].answer) in events;
      }
    }
  }

  /** In every run the answers merged are answers the sources gave. */
  lemma {:induction false} AnswersWereGiven(c: Config, n: nat, events: seq<Event>)
    requires Possible(c, Init(c, n), events)
    ensures Truthful(After(c, Init(c, n), events), events)
  {
    hide Apply, Enabled;
    if events != [] {
      var m := |events| - 1;
      AnswersWereGiven(c, n, events[..m]);
      StaysTruthful(c, After(c, Init(c, n), events[..m]), events[..m], events[m]);
      assert events == events[..m] + [events[m]];
    }
  }

  // ----- The histogram -----

  /** The answers received, of rounds that began within second b after the start, or for b = 10 later than that. */
  ghost function Received(c: Config, n: nat, events: seq<Event>, b: nat): nat
    requires Possible(c, Init(c, n), events)
  {
    if events == [] then 0
    else
      var m := |events| - 1;
      var s := After(c, Init(c, n), events[..m]);
      Received(c, n, events[..m], b) +
      if events[m].Receive? && s.collector.Waiting? && InSecond(c, s.collector.now, b) then 1 else 0
  }

  lemma {:induction false} HistogramMeaning(c: Config, n: nat, events: seq<Event>, b: nat)
    requires Possible(c, Init(c, n), events) && b < 11
    ensures |After(c, Init(c, n), events).latencies| == 11
    ensures After(c, Init(c, n), events).latencies[b] == Received(c, n, events, b)
  {
    hide Merge, Bucket;
    if events != [] {
      var m := |events| - 1;
      HistogramMeaning(c, n, events[..m], b);
      var s := After(c, Init(c, n), events[..m]);
      InvHolds(c, n, events[..m]);
      if events[m].Receive? {
        BucketIsSecond(c, s.collector.now, b);
      }
    }
  }
}
