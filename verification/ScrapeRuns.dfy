/** metrics/sources/manager.go: the answers of the sources can arrive in every order, and when that shows. */
module ScrapeRuns {
  import opened Core
  import opened Scraping

  lemma Extend(c: Config, n: nat, events: seq<Event>, e: Event) returns (more: seq<Event>)
    requires Possible(c, Init(c, n), events) && Enabled(c, After(c, Init(c, n), events), e)
    ensures Possible(c, Init(c, n), more) && After(c, Init(c, n), more) == Apply(c, After(c, Init(c, n), events), e)
  {
    hide Enabled, Apply;
    more := events + [e];
    assert more[..|events|] == events;
  }

  /** The first p sources offer their answers, the others are still at it. */
  ghost predicate Offered(c: Config, s: State, answers: seq<Answer>, p: nat) {
    && s.clock == c.startTime && s.collector == Reading(0) && s.received == [] && |s.producers| == |answers|
    && forall q :: 0 <= q < |answers| ==> s.producers[q] == if q < p then Offering(answers[q]) else Scraping
  }

  lemma {:induction false} AllOffer(c: Config, answers: seq<Answer>, p: nat) returns (events: seq<Event>)
    requires c.startTime < c.timeoutTime && p <= |answers|
    ensures Possible(c, Init(c, |answers|), events) && Offered(c, After(c, Init(c, |answers|), events), answers, p)
  {
    if p == 0 {
      events := [];
    } else {
      events := AllOffer(c, answers, p - 1);
      events := Extend(c, |answers|, events, Answered(p - 1, answers[p - 1]));
    }
  }

  /** The first i sources of the order were received from, the others still offer. */
  ghost predicate ReceivedSoFar(c: Config, s: State, answers: seq<Answer>, order: seq<nat>, i: nat)
    requires i <= |order|
  {
    && s.clock == c.startTime && s.collector == Reading(i) && s.received == order[..i] && |s.producers| == |answers|
    && forall q: nat :: q < |answers| ==>
         s.producers[q] == if q in order[..i] then Sent(answers[q]) else Offering(answers[q])
  }

  ghost predicate Sources(order: seq<nat>, n: nat) {
    NoRepeats(order) && forall i :: 0 <= i < |order| ==> order[i] < n
  }

  lemma {:induction false} ReceiveInOrder(c: Config, answers: seq<Answer>, order: seq<nat>, i: nat)
      returns (events: seq<Event>)
    requires c.startTime < c.timeoutTime && Sources(order, |answers|) && i <= |order|
    ensures Possible(c, Init(c, |answers|), events)
    ensures ReceivedSoFar(c, After(c, Init(c, |answers|), events), answers, order, i)
  {
    hide Possible, After;
    var n := |answers|;
    if i == 0 {
      events := AllOffer(c, answers, n);
    } else {
      NoMoreThan(order, n);
      events := ReceiveInOrder(c, answers, order, i - 1);
      OneArrives(c, After(c, Init(c, n), events), answers, order, i - 1);
      events := Extend(c, n, events, Read);
      events := Extend(c, n, events, Receive(order[i - 1]));
    }
  }

  lemma OneArrives(c: Config, s: State, answers: seq<Answer>, order: seq<nat>, i: nat)
    requires c.startTime < c.timeoutTime && Sources(order, |answers|) && i < |order| <= |answers|
    requires ReceivedSoFar(c, s, answers, order, i)
    ensures Enabled(c, s, Read) && Enabled(c, Apply(c, s, Read), Receive(order[i]))
    ensures ReceivedSoFar(c, Apply(c, Apply(c, s, Read), Receive(order[i])), answers, order, i + 1)
  {
    hide Merge, Bucket;
    assert order[i] !in order[..i];
    assert order[..i + 1] == order[..i] + [order[i]];
  }

  /** The answers in the order of their sources' arrival. */
  function InOrder(answers: seq<Answer>, order: seq<nat>): seq<Answer>
    requires forall i :: 0 <= i < |order| ==> order[i] < |answers|
  {
    seq(|order|, i requires 0 <= i < |order| => answers[order[i]])
  }

  /** Whatever the sources answer, there is a run in which they are received from in any given order. */
  lemma EveryOrderCanArrive(c: Config, answers: seq<Answer>, order: seq<nat>) returns (events: seq<Event>)
    requires c.startTime < c.timeoutTime && Sources(order, |answers|)
    ensures Possible(c, Init(c, |answers|), events)
    ensures var s := After(c, Init(c, |answers|), events);
            && s.received == order && |s.producers| == |answers|
            && (forall p: nat :: p < |answers| && p in order ==> s.producers[p] == Sent(answers[p]))
            && s.response == Merged(InOrder(answers, order))
  {
    hide Possible, After, Merged, LatencyInv;
    events := ReceiveInOrder(c, answers, order, |order|);
    var s := After(c, Init(c, |answers|), events);
    InvHolds(c, |answers|, events);
    assert order[..|order|] == order;
    assert Answers(s) == InOrder(answers, order);
  }

  /** A run that received these answers from all the sources. */
  ghost predicate Complete(c: Config, answers: seq<Answer>, events: seq<Event>) {
    && Possible(c, Init(c, |answers|), events)
    && var s := After(c, Init(c, |answers|), events);
       |s.producers| == |answers| && forall p :: 0 <= p < |answers| ==> s.producers[p] == Sent(answers[p])
  }

  /** Every run that receives these answers ends with the same response. */
  ghost predicate ResponseFixed(c: Config, answers: seq<Answer>) {
    forall events, events' :: Complete(c, answers, events) && Complete(c, answers, events') ==>
      After(c, Init(c, |answers|), events).response == After(c, Init(c, |answers|), events').response
  }

  lemma CompleteMembers(c: Config, answers: seq<Answer>, events: seq<Event>)
    requires Complete(c, answers, events)
    ensures var s := After(c, Init(c, |answers|), events);
            s.response == Merged(Answers(s)) && forall a :: a in Answers(s) <==> a in answers
  {
    hide Possible, After, Merged, LatencyInv;
    InvHolds(c, |answers|, events);
    var s := After(c, Init(c, |answers|), events);
    forall p | 0 <= p < |answers|
      ensures answers[p] in Answers(s)
    {
      assert p in s.received;
      var i :| 0 <= i < |s.received| && s.received[i] == p;
      assert Answers(s)[i] == answers[p];
    }
    forall i | 0 <= i < |s.received|
      ensures Answers(s)[i] in answers
    {
      assert Answers(s)[i] == answers[s.received[i]];
    }
  }

  /** The sources below n but for two. */
  function Others(n: nat, p: nat, q: nat): seq<nat> {
    if n == 0 then [] else Others(n - 1, p, q) + if n - 1 == p || n - 1 == q then [] else [n - 1]
  }

  lemma {:induction false} OthersAre(n: nat, p: nat, q: nat)
    ensures NoRepeats(Others(n, p, q)) && forall i: nat :: i in Others(n, p, q) <==> i < n && i != p && i != q
  {
    if n > 0 {
      OthersAre(n - 1, p, q);
      var rest := Others(n - 1, p, q);
      assert forall i :: 0 <= i < |rest| ==> rest[i] in rest;
    }
  }

  /** The sources in an order that ends with p and then q. */
  lemma EndsWith(n: nat, p: nat, q: nat)
    requires p < n && q < n && p != q
    ensures var order := Others(n, p, q) + [p, q]; Sources(order, n) && forall i: nat :: i < n ==> i in order
  {
    hide Others;
    OthersAre(n, p, q);
    var rest := Others(n, p, q);
    forall i | 0 <= i < |rest|
      ensures rest[i] < n && rest[i] != p && rest[i] != q
    {
      assert rest[i] in rest;
    }
  }

  lemma {:induction false} OthersEitherWay(n: nat, p: nat, q: nat)
    ensures Others(n, p, q) == Others(n, q, p)
  {
    if n > 0 {
      OthersEitherWay(n - 1, p, q);
    }
  }

  lemma RunEndingWith(c: Config, answers: seq<Answer>, p: nat, q: nat) returns (events: seq<Event>)
    requires c.startTime < c.timeoutTime && p < |answers| && q < |answers| && p != q
    ensures Complete(c, answers, events)
    ensures var rest := Others(|answers|, p, q);
            && (forall i :: 0 <= i < |rest| ==> rest[i] < |answers|)
            && After(c, Init(c, |answers|), events).response ==
               Merged(InOrder(answers, rest) + [answers[p], answers[q]])
  {
    hide Possible, After, Merged, Others;
    var n := |answers|;
    var rest := Others(n, p, q);
    var order := rest + [p, q];
    EndsWith(n, p, q);
    events := EveryOrderCanArrive(c, answers, order);
    InvHolds(c, n, events);
    assert forall i :: 0 <= i < |rest| ==> rest[i] == order[i];
    assert InOrder(answers, order) == InOrder(answers, rest) + [answers[p], answers[q]];
  }

  /** Over all runs the response is fixed by the answers if and only if the answers agree with each other. */
  lemma ResponseFixedExactlyWhenAgree(c: Config, answers: seq<Answer>)
    requires c.startTime < c.timeoutTime
    ensures ResponseFixed(c, answers) <==> forall p, q :: 0 <= p < q < |answers| ==> Agree(answers[p], answers[q])
  {
    hide Possible, After, Merged, Others;
    if ResponseFixed(c, answers) {
      forall p, q | 0 <= p < q < |answers|
        ensures Agree(answers[p], answers[q])
      {
        if !Agree(answers[p], answers[q]) {
          var one := RunEndingWith(c, answers, p, q);
          var two := RunEndingWith(c, answers, q, p);
          OthersEitherWay(|answers|, p, q);
          DisagreementShows(InOrder(answers, Others(|answers|, p, q)), answers[p], answers[q]);
        }
      }
    }
    if forall p, q :: 0 <= p < q < |answers| ==> Agree(answers[p], answers[q]) {
      forall events, events' | Complete(c, answers, events) && Complete(c, answers, events')
        ensures After(c, Init(c, |answers|), events).response == After(c, Init(c, |answers|), events').response
      {
        CompleteMembers(c, answers, events);
        CompleteMembers(c, answers, events');
        AgreedInAnyOrder(Answers(After(c, Init(c, |answers|), events)), Answers(After(c, Init(c, |answers|), events')));
      }
    }
  }
}
