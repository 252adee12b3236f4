/**
 * metrics/sources/manager.go: one goroutine per source and one collector, up to a deadline, as a
 * transition system; and the collector's loop.
 */
module Scraping {
  import opened Core

  /** What a source answered; a nil batch is counted but adds nothing. */
  type Answer = Option<View>

  datatype Producer = Scraping | Offering(answer: Answer) | Sent(answer: Answer) | Failed | TooLate

  /** The collector's loop: about to read the clock for round i, waiting in round i, or done. */
  datatype Collector = Reading(i: nat) | Waiting(i: nat, now: int) | Finished

  datatype Config = Config(startTime: int, timeoutTime: int)

  datatype State = State(clock: int, producers: seq<Producer>, collector: Collector,
                         response: View, latencies: seq<nat>, received: seq<nat>)

  datatype Event =
    | Tick(time: nat)
    | Fail(p: nat)
    | Answered(p: nat, answer: Answer)
    | Expire(p: nat)
    | Read
    | Receive(p: nat)
    | Deadline

  const BUCKETS := 11
  const SECOND := 1_000_000_000

  function Init(c: Config, n: nat): State {
    State(c.startTime, seq(n, _ => Scraping), Reading(0), map[], seq(BUCKETS, _ => 0), [])
  }

  predicate Enabled(c: Config, s: State, e: Event) {
    match e
    case Tick(_) => true
    case Fail(p) => p < |s.producers| && s.producers[p].Scraping?
    case Answered(p, _) => p < |s.producers| && s.producers[p].Scraping?
    case Expire(p) => p < |s.producers| && s.producers[p].Offering? && s.clock >= c.timeoutTime
    case Read => s.collector.Reading?
    case Receive(p) => p < |s.producers| && s.producers[p].Offering? && s.collector.Waiting?
    case Deadline => s.collector.Waiting? && s.clock >= c.timeoutTime
  }

  function Merge(response: View, a: Answer): View {
    if a.None? then response else response + a.value
  }

  /** The latency's bucket: whole seconds, the last bucket taking all that is slower. */
  function Bucket(c: Config, now: int): int {
    var seconds := (now - c.startTime) / SECOND;
    if seconds >= BUCKETS then BUCKETS - 1 else seconds
  }

  function Apply(c: Config, s: State, e: Event): State
    requires Enabled(c, s, e)
  {
    match e
    case Tick(d) => s.(clock := s.clock + d)
    case Fail(p) => s.(producers := s.producers[p := Failed])
    case Answered(p, a) => s.(producers := s.producers[p := if s.clock < c.timeoutTime then Offering(a) else TooLate])
    case Expire(p) => s.(producers := s.producers[p := TooLate])
    case Read =>
      var i := s.collector.i;
      s.(collector := if i < |s.producers| && s.clock < c.timeoutTime then Waiting(i, s.clock) else Finished)
    case Receive(p) =>
      var a, b := s.producers[p].answer, Bucket(c, s.collector.now);
      s.(producers := s.producers[p := Sent(a)], collector := Reading(s.collector.i + 1),
         response := Merge(s.response, a), received := s.received + [p],
         // An index out of bounds is a panic; the invariant rules it out.
         latencies := if 0 <= b < |s.latencies| then s.latencies[b := s.latencies[b] + 1] else s.latencies)
    case Deadline => s.(collector := Finished)
  }

  predicate Possible(c: Config, s: State, events: seq<Event>)
    decreases |events|, 0
  {
    events == [] || (Possible(c, s, events[..|events| - 1]) && Enabled(c, After(c, s, events[..|events| - 1]),
        events[|events| - 1]))
  }

  function After(c: Config, s: State, events: seq<Event>): State
    requires Possible(c, s, events)
    decreases |events|, 1
  {
    if events == [] then s else Apply(c, After(c, s, events[..|events| - 1]), events[|events| - 1])
  }

  // ----- What the collector gathers -----

  /** The answers merged one after the other, a later one winning. */
  function Merged(answers: seq<Answer>): View {
    if answers == [] then map[] else Merge(Merged(answers[..|answers| - 1]), answers[|answers| - 1])
  }

  function Total(latencies: seq<nat>): nat {
    if latencies == [] then 0 else Total(latencies[..|latencies| - 1]) + latencies[|latencies| - 1]
  }

  lemma {:induction false} TotalCounted(l: seq<nat>, b: nat)
    requires b < |l|
    ensures Total(l[b := l[b] + 1]) == Total(l) + 1
  {
    var n := |l| - 1;
    if b == n {
      assert l[b := l[b] + 1][..n] == l[..n];
    } else {
      assert l[b := l[b] + 1][..n] == l[..n][b := l[b] + 1];
      TotalCounted(l[..n], b);
    }
  }

  lemma {:induction false} TotalZero(l: seq<nat>)
    requires forall i :: 0 <= i < |l| ==> l[i] == 0
    ensures Total(l) == 0
  {
    if l != [] {
      TotalZero(l[..|l| - 1]);
    }
  }

  /** The answers of the sources received from, in order of arrival. */
  function Answers(s: State): seq<Answer> {
    seq(|s.received|, i requires 0 <= i < |s.received| => AnswerOf(s, s.received[i]))
  }

  /** What source p sent; only sources that sent something are received from. */
  function AnswerOf(s: State, p: nat): Answer {
    if p < |s.producers| && s.producers[p].Sent? then s.producers[p].answer else None
  }

  ghost predicate ReceivedInv(s: State) {
    && NoRepeats(s.received)
    && (forall i :: 0 <= i < |s.received| ==> s.received[i] < |s.producers| && s.producers[s.received[i]].Sent?)
    && (forall p :: 0 <= p < |s.producers| && s.producers[p].Sent? ==> p in s.received)
    && s.response == Merged(Answers(s))
  }

  ghost predicate LatencyInv(c: Config, s: State) {
    && |s.latencies| == BUCKETS && Total(s.latencies) == |s.received| && s.clock >= c.startTime
    && (s.collector.Waiting? ==> s.collector.i == |s.received| && c.startTime <= s.collector.now < c.timeoutTime)
    && (s.collector.Reading? ==> s.collector.i == |s.received|)
  }

  lemma BucketInBounds(c: Config, now: int)
    requires now >= c.startTime
    ensures 0 <= Bucket(c, now) < BUCKETS
    ensures Bucket(c, now) < BUCKETS - 1 ==>
              Bucket(c, now) * SECOND <= now - c.startTime < (Bucket(c, now) + 1) * SECOND
    ensures Bucket(c, now) == BUCKETS - 1 <==> now - c.startTime >= (BUCKETS - 1) * SECOND
  {}

  lemma LatencyKept(c: Config, s: State, e: Event)
    requires LatencyInv(c, s) && Enabled(c, s, e)
    ensures LatencyInv(c, Apply(c, s, e))
  {
    hide Merge, Total, Bucket;
    if e.Receive? {
      BucketInBounds(c, s.collector.now);
      TotalCounted(s.latencies, Bucket(c, s.collector.now));
    }
  }

  /** A step that receives nothing and touches no source received from. */
  lemma NothingReceived(s: State, t: State)
    requires ReceivedInv(s) && t.received == s.received && t.response == s.response && |t.producers| == |s.producers|
    requires forall p :: 0 <= p < |s.producers| ==> if s.producers[p].Sent? then t.producers[p] == s.producers[p]
            else !t.producers[p].Sent?
    ensures ReceivedInv(t)
  {
    hide Merged;
    assert Answers(t) == Answers(s);
  }

  lemma OneReceived(c: Config, s: State, p: nat)
    requires ReceivedInv(s) && Enabled(c, s, Receive(p))
    ensures ReceivedInv(Apply(c, s, Receive(p)))
  {
    hide Merge, Bucket;
    var t := Apply(c, s, Receive(p));
    assert forall i :: 0 <= i < |s.received| ==> s.received[i] != p;
    assert Answers(t)[..|s.received|] == Answers(s);
  }

  lemma ReceivedKept(c: Config, s: State, e: Event)
    requires ReceivedInv(s) && Enabled(c, s, e)
    ensures ReceivedInv(Apply(c, s, e))
  {
    hide ReceivedInv, Merge, Bucket;
    match e
    case Receive(p) => OneReceived(c, s, p);
    case _ => NothingReceived(s, Apply(c, s, e));
  }

  ghost predicate Inv(c: Config, s: State) {
    LatencyInv(c, s) && ReceivedInv(s)
  }

  lemma {:induction false} InvHolds(c: Config, n: nat, events: seq<Event>)
    requires Possible(c, Init(c, n), events)
    ensures Inv(c, After(c, Init(c, n), events)) && |After(c, Init(c, n), events).producers| == n
  {
    hide LatencyInv, ReceivedInv;
    if events == [] {
      InitInv(c, n);
    } else {
      var m := |events| - 1;
      InvHolds(c, n, events[..m]);
      LatencyKept(c, After(c, Init(c, n), events[..m]), events[m]);
      ReceivedKept(c, After(c, Init(c, n), events[..m]), events[m]);
    }
  }

  lemma InitInv(c: Config, n: nat)
    ensures Inv(c, Init(c, n))
  {
    TotalZero(Init(c, n).latencies);
  }

  /**
   * In every interleaving each source is received from at most once, the response is the merge of the
   * received answers in order of arrival, and the histogram counts the answers received.
   */
  lemma CollectionMeaning(c: Config, n: nat, events: seq<Event>)
    requires Possible(c, Init(c, n), events)
    ensures var s := After(c, Init(c, n), events);
            && ReceivedInv(s) && s.response == Merged(Answers(s))
            && |s.received| <= n
            && |s.latencies| == BUCKETS && Total(s.latencies) == |s.received|
            && (s.collector.Waiting? ==> 0 <= Bucket(c, s.collector.now) < BUCKETS)
  {
    hide Possible, After, Bucket, Merge, Total;
    InvHolds(c, n, events);
    var s := After(c, Init(c, n), events);
    NoMoreThan(s.received, n);
    if s.collector.Waiting? {
      BucketInBounds(c, s.collector.now);
    }
  }

  ghost function UpTo(n: nat): (r: set<nat>)
    ensures |r| == n && forall i: nat :: i in r <==> i < n
  {
    if n == 0 then {} else UpTo(n - 1) + {n - 1}
  }

  ghost function Elements(s: seq<nat>): (r: set<nat>)
    ensures forall x :: x in r <==> x in s
  {
    if s == [] then {}
    else
      assert s == s[..|s| - 1] + [s[|s| - 1]];
      Elements(s[..|s| - 1]) + {s[|s| - 1]}
  }

  lemma {:induction false} Counted(s: seq<nat>)
    requires NoRepeats(s)
    ensures |Elements(s)| == |s|
  {
    if s != [] {
      var n := |s| - 1;
      Counted(s[..n]);
      assert s[n] !in s[..n];
      assert Elements(s) == Elements(s[..n]) + {s[n]};
    }
  }

  lemma NoMoreThan(s: seq<nat>, n: nat)
    requires NoRepeats(s) && forall i :: 0 <= i < |s| ==> s[i] < n
    ensures |s| <= n
  {
    Counted(s);
    Smaller(Elements(s), UpTo(n));
  }

  lemma {:induction false} Smaller(a: set<nat>, b: set<nat>)
    requires a <= b
    ensures |a| <= |b|
  {
    if a != {} {
      var x :| x in a;
      Smaller(a - {x}, b - {x});
    }
  }

  // ----- Order of arrival -----

  predicate Has(a: Answer, k: string) {
    a.Some? && k in a.value
  }

  /** Key k is in the merge if some answer has it, with the value of the last that does. */
  lemma {:induction false} LastWins(answers: seq<Answer>, k: string)
    ensures k in Merged(answers) <==> exists i :: 0 <= i < |answers| && Has(answers[i], k)
    ensures forall i :: 0 <= i < |answers| && Has(answers[i], k) &&
                (forall j :: i < j < |answers| ==> !Has(answers[j], k))
              ==> Merged(answers)[k] == answers[i].value[k]
  {
    hide Merge;
    if answers != [] {
      var n := |answers| - 1;
      LastWins(answers[..n], k);
      MergeHas(Merged(answers[..n]), answers[n], k);
      assert forall i :: 0 <= i < n ==> answers[i] == answers[..n][i];
    }
  }

  lemma MergeHas(v: View, a: Answer, k: string)
    ensures k in Merge(v, a) <==> k in v || Has(a, k)
    ensures k in Merge(v, a) ==> Merge(v, a)[k] == if Has(a, k) then a.value[k] else v[k]
  {}

  /** Two answers agree on the keys they share; disjoint ones always do. */
  predicate Agree(a: Answer, b: Answer) {
    a.Some? && b.Some? ==> forall k :: k in a.value && k in b.value ==> a.value[k] == b.value[k]
  }

  lemma {:induction false} AgreedValue(answers: seq<Answer>, i: nat, k: string)
    requires i < |answers| && Has(answers[i], k)
    requires forall a, b :: a in answers && b in answers ==> Agree(a, b)
    ensures k in Merged(answers) && Merged(answers)[k] == answers[i].value[k]
  {
    var n := |answers| - 1;
    if i < n {
      assert forall a :: a in answers[..n] ==> a in answers;
      AgreedValue(answers[..n], i, k);
    }
    assert Agree(answers[i], answers[n]);
  }

  /** Answers that agree merge to the same response in any order. */
  lemma AgreedInAnyOrder(s: seq<Answer>, t: seq<Answer>)
    requires forall a :: a in s <==> a in t
    requires forall a, b :: a in s && b in s ==> Agree(a, b)
    ensures Merged(s) == Merged(t)
  {
    hide Merged;
    forall k
      ensures k in Merged(s) <==> k in Merged(t)
      ensures k in Merged(s) && k in Merged(t) ==> Merged(s)[k] == Merged(t)[k]
    {
      LastWins(s, k);
      LastWins(t, k);
      if i :| 0 <= i < |s| && Has(s[i], k) {
        AgreedValue(s, i, k);
        assert s[i] in t;
        var j :| 0 <= j < |t| && t[j] == s[i];
        AgreedValue(t, j, k);
      } else {
        forall j | 0 <= j < |t|
          ensures !Has(t[j], k)
        {
          assert t[j] in s;
        }
      }
    }
  }

  /** Two answers that do not agree merge differently in the two orders, after any others. */
  lemma DisagreementShows(s: seq<Answer>, a: Answer, b: Answer)
    requires !Agree(a, b)
    ensures Merged(s + [a, b]) != Merged(s + [b, a])
  {
    var k :| k in a.value && k in b.value && a.value[k] != b.value[k];
    LastOfAll(s + [a], b, k);
    LastOfAll(s + [b], a, k);
    assert s + [a, b] == s + [a] + [b] && s + [b, a] == s + [b] + [a];
  }

  ghost predicate OrderFree(s: seq<Answer>) {
    forall t :: multiset(t) == multiset(s) ==> Merged(t) == Merged(s)
  }

  /** The response is the same in every order of arrival if and only if the answers agree with each other. */
  lemma OrderFreeExactlyWhenAgree(s: seq<Answer>)
    ensures OrderFree(s) <==> forall i, j :: 0 <= i < j < |s| ==> Agree(s[i], s[j])
  {
    hide Merged;
    if OrderFree(s) {
      forall i, j | 0 <= i < j < |s|
        ensures Agree(s[i], s[j])
      {
        if !Agree(s[i], s[j]) {
          var rest := s[..i] + s[i + 1..j] + s[j + 1..];
          Reordered(s, i, j);
          DisagreementShows(rest, s[i], s[j]);
        }
      }
    }
    if forall i, j :: 0 <= i < j < |s| ==> Agree(s[i], s[j]) {
      forall t | multiset(t) == multiset(s)
        ensures Merged(t) == Merged(s)
      {
        SameMembers(s, t);
        AgreedInAnyOrder(s, t);
      }
    }
  }

  lemma SameMembers(s: seq<Answer>, t: seq<Answer>)
    requires multiset(s) == multiset(t)
    ensures forall a :: a in s <==> a in t
  {
    assert forall a :: a in s <==> a in multiset(s);
    assert forall a :: a in t <==> a in multiset(t);
  }

  lemma Reordered(s: seq<Answer>, i: nat, j: nat)
    requires i < j < |s|
    ensures var rest := s[..i] + s[i + 1..j] + s[j + 1..];
            multiset(rest + [s[i], s[j]]) == multiset(s) && multiset(rest + [s[j], s[i]]) == multiset(s)
  {
    assert s == s[..i] + [s[i]] + s[i + 1..j] + [s[j]] + s[j + 1..];
  }

  lemma LastOfAll(s: seq<Answer>, a: Answer, k: string)
    requires a.Some? && k in a.value
    ensures k in Merged(s + [a]) && Merged(s + [a])[k] == a.value[k]
  {
    assert (s + [a])[..|s|] == s;
  }

  /** Two runs that received the same answers, which agree, end with the same response however they arrived. */
  lemma ArrivalOrderDoesNotShow(c: Config, n: nat, events: seq<Event>, d: Config, events': seq<Event>)
    requires Possible(c, Init(c, n), events) && Possible(d, Init(d, n), events')
    requires var s, t := After(c, Init(c, n), events), After(d, Init(d, n), events');
             && (forall a :: a in Answers(s) <==> a in Answers(t))
             && forall a, b :: a in Answers(s) && b in Answers(s) ==> Agree(a, b)
    ensures After(c, Init(c, n), events).response == After(d, Init(d, n), events').response
  {
    hide Possible, After, Merged, LatencyInv;
    InvHolds(c, n, events);
    InvHolds(d, n, events');
    AgreedInAnyOrder(Answers(After(c, Init(c, n), events)), Answers(After(d, Init(d, n), events')));
  }

  // ----- The collector's loop -----

  /** What round i of the loop meets: the clock, and what arrives before the deadline, if anything does. */
  datatype Round = Round(now: int, arrival: Option<Answer>)

  /** The loop takes n answers: it stops when a round begins past the deadline, or nothing arrives before it. */
  predicate Takes(c: Config, rounds: seq<Round>, n: nat) {
    && n <= |rounds|
    && (forall i :: 0 <= i < n ==> rounds[i].now < c.timeoutTime && rounds[i].arrival.Some?)
    && (n < |rounds| ==> rounds[n].now >= c.timeoutTime || rounds[n].arrival.None?)
  }

  function Arrivals(rounds: seq<Round>): seq<Answer>
    requires forall i :: 0 <= i < |rounds| ==> rounds[i].arrival.Some?
  {
    seq(|rounds|, i requires 0 <= i < |rounds| => rounds[i].arrival.value)
  }

  /** Within second b after the start, or for b = 10 later than that. */
  predicate InSecond(c: Config, now: int, b: nat) {
    var elapsed := now - c.startTime;
    b * 1_000_000_000 <= elapsed && (b < 10 ==> elapsed < (b + 1) * 1_000_000_000)
  }

  lemma BucketIsSecond(c: Config, now: int, b: nat)
    requires now >= c.startTime && b < 11
    ensures 0 <= Bucket(c, now) < 11 && (Bucket(c, now) == b <==> InSecond(c, now, b))
  {}

  /** How many rounds began within second b. */
  function Began(c: Config, rounds: seq<Round>, b: nat): nat {
    if rounds == [] then 0
    else Began(c, rounds[..|rounds| - 1], b) + if InSecond(c, rounds[|rounds| - 1].now, b) then 1 else 0
  }

  /** The part of a batch that is not under the keys still to do. */
  ghost function Without(sets: View, todo: set<string>): View {
    map k | k in sets && k !in todo :: sets[k]
  }

  lemma EnteredNext(response: View, sets: View, todo: set<string>, k: string)
    requires k in todo && k in sets
    ensures (response + Without(sets, todo))[k := sets[k]] == response + Without(sets, todo - {k})
  {}

  lemma EnteredAll(response: View, sets: View)
    ensures response + Without(sets, sets.Keys) == response && Without(sets, {}) == sets
  {
    assert Without(sets, sets.Keys) == map[];
  }

  lemma MergeIs(response: View, a: Answer)
    ensures Merge(response, a) == if a.None? then response else response + a.value
  {}

  /** The sets of a batch entered one by one. */
  method EnterSets(response: View, sets: View) returns (r: View)
    ensures r == response + sets
  {
    hide Without;
    r := response;
    var todo := sets.Keys;
    EnteredAll(response, sets);
    while todo != {}
      invariant todo <= sets.Keys && r == response + Without(sets, todo)
      decreases |todo|
    {
      var k :| k in todo;
      EnteredNext(response, sets, todo, k);
      r := r[k := sets[k]];
      todo := todo - {k};
    }
  }

  /** One answer entered: merged, and counted in its bucket. */
  method Enter(c: Config, response: View, latencies: array<nat>, now: int, a: Answer) returns (r: View)
    requires latencies.Length == BUCKETS && now >= c.startTime
    modifies latencies
    ensures r == Merge(response, a)
    ensures Total(latencies[..]) == Total(old(latencies[..])) + 1
    ensures latencies[..] == old(latencies[..])[Bucket(c, now) := old(latencies[..])[Bucket(c, now)] + 1]
  {
    hide Merge, Total;
    r := response;
    if a.Some? {
      r := EnterSets(r, a.value);
    }
    assert r == Merge(response, a) by {
      MergeIs(response, a);
    }
    var bucket := (now - c.startTime) / SECOND;
    if bucket >= latencies.Length {
      bucket := latencies.Length - 1;
    }
    TotalCounted(latencies[..], bucket);
    latencies[bucket] := latencies[bucket] + 1;
  }

  /** The collector's loop, and how many answers it takes. */
  method Collect(c: Config, rounds: seq<Round>) returns (response: View, latencies: array<nat>, n: nat)
    requires forall i :: 0 <= i < |rounds| ==> rounds[i].now >= c.startTime
    ensures Takes(c, rounds, n) && response == Merged(Arrivals(rounds[..n]))
    ensures fresh(latencies) && latencies.Length == 11 && Total(latencies[..]) == n
    ensures forall b :: 0 <= b < 11 ==> latencies[b] == Began(c, rounds[..n], b)
  {
    hide Merge, Total, Bucket, InSecond;
    response := map[];
    latencies := new nat[BUCKETS](_ => 0);
    TotalZero(latencies[..]);
    n := 0;
    while n < |rounds| && rounds[n].now < c.timeoutTime && rounds[n].arrival.Some?
      invariant n <= |rounds|
      invariant forall i :: 0 <= i < n ==> rounds[i].now < c.timeoutTime && rounds[i].arrival.Some?
      invariant response == Merged(Arrivals(rounds[..n]))
      invariant fresh(latencies) && latencies.Length == 11 && Total(latencies[..]) == n
      invariant forall b :: 0 <= b < 11 ==> latencies[b] == Began(c, rounds[..n], b)
      decreases |rounds| - n
    {
      ghost var before := latencies[..];
      response := Enter(c, response, latencies, rounds[n].now, rounds[n].arrival.value);
      assert rounds[..n + 1][..n] == rounds[..n];
      assert Arrivals(rounds[..n + 1])[..n] == Arrivals(rounds[..n]);
      forall b | 0 <= b < 11
        ensures latencies[..][b] == Began(c, rounds[..n + 1], b)
      {
        BucketIsSecond(c, rounds[n].now, b);
        assert before[b] == Began(c, rounds[..n], b);
      }
      n := n + 1;
    }
  }
}
