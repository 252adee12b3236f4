/**
 * metrics/sinks/stackdriver/stackdriver.go: sendRequests and requestSender as a transition system. The
 * sender offers requests 0..n-1 in order to whichever worker takes them, until done or timed out.
 */
module RequestWorkers {
  import opened Core
  import opened Sequences

  datatype Worker = Sleeping | Ready | Holding(request: nat) | Leaving | Gone

  /** The sender: offering, counting the workers that left, or returned. */
  datatype Sender = Offering | Counting | Returned

  datatype State = State(requests: nat, next: nat, sender: Sender, workers: seq<Worker>,
                         sent: seq<nat>, dropped: seq<nat>, completed: nat)

  datatype Event =
    | WakeUp(w: nat)
    | Take(w: nat)
    | Send(w: nat)
    | DropRest
    | Close
    | Leave(w: nat)
    | Count(w: nat)
    | StopCounting

  function Init(requests: nat, workers: nat): State {
    State(requests, 0, Offering, seq(workers, _ => Sleeping), [], [], 0)
  }

  predicate Enabled(s: State, e: Event) {
    match e
    case WakeUp(w) => w < |s.workers| && s.workers[w] == Sleeping
    case Take(w) => s.sender == Offering && s.next < s.requests && w < |s.workers| && s.workers[w] == Ready
    case Send(w) => w < |s.workers| && s.workers[w].Holding?
    case DropRest => s.sender == Offering && s.next < s.requests
    case Close => s.sender == Offering && s.next == s.requests
    case Leave(w) => s.sender != Offering && w < |s.workers| && s.workers[w] == Ready
    case Count(w) => s.sender == Counting && w < |s.workers| && s.workers[w] == Leaving
    case StopCounting => s.sender == Counting
  }

  function Range(a: nat, b: nat): seq<nat>
    requires a <= b
  {
    seq(b - a, i requires 0 <= i < b - a => a + i)
  }

  function Apply(s: State, e: Event): State
    requires Enabled(s, e)
  {
    match e
    case WakeUp(w) => s.(workers := s.workers[w := Ready])
    case Take(w) => s.(workers := s.workers[w := Holding(s.next)], next := s.next + 1)
    case Send(w) => s.(workers := s.workers[w := Ready], sent := s.sent + [s.workers[w].request])
    case DropRest => s.(sender := Counting, dropped := s.dropped + Range(s.next, s.requests))
    case Close => s.(sender := Counting)
    case Leave(w) => s.(workers := s.workers[w := Leaving])
    case Count(w) =>
      s.(workers := s.workers[w := Gone], completed := s.completed + 1,
         sender := if s.completed + 1 == |s.workers| then Returned else Counting)
    case StopCounting => s.(sender := Returned)
  }

  predicate Possible(s: State, events: seq<Event>)
    decreases |events|, 0
  {
    events == [] ||
    (Possible(s, events[..|events| - 1]) && Enabled(After(s, events[..|events| - 1]), events[|events| - 1]))
  }

  function After(s: State, events: seq<Event>): State
    requires Possible(s, events)
    decreases |events|, 1
  {
    if events == [] then s else Apply(After(s, events[..|events| - 1]), events[|events| - 1])
  }

  // ----- Where each request is -----

  predicate Held(s: State, r: nat, w: nat) {
    w < |s.workers| && s.workers[w] == Holding(r)
  }

  /** What has been taken is held by one worker or sent, and what has not is still to be offered or dropped. */
  ghost predicate Inv(s: State) {
    && s.next <= s.requests
    && (forall w: nat, r: nat :: Held(s, r, w) ==> r < s.next && r !in s.sent)
    && (forall w: nat, v: nat, r: nat :: Held(s, r, w) && Held(s, r, v) ==> w == v)
    && NoRepeats(s.sent)
    && (forall r: nat :: r in s.sent ==> r < s.next)
    && (forall r: nat :: r < s.next && r !in s.sent ==> exists w: nat :: Held(s, r, w))
    && s.dropped == (if s.sender == Offering then [] else Range(s.next, s.requests))
  }

  lemma TakeKept(s: State, w: nat)
    requires Inv(s) && Enabled(s, Take(w))
    ensures Inv(Apply(s, Take(w)))
  {
    var t := Apply(s, Take(w));
    assert Held(t, s.next, w);
    assert forall v: nat, r: nat :: v != w ==> (Held(t, r, v) <==> Held(s, r, v));
    assert forall r: nat :: !Held(s, r, w);
    forall r: nat | r < t.next && r !in t.sent
      ensures exists v: nat :: Held(t, r, v)
    {
      if r < s.next {
        var v: nat :| Held(s, r, v);
        assert Held(t, r, v);
      }
    }
  }

  lemma SendKept(s: State, w: nat)
    requires Inv(s) && Enabled(s, Send(w))
    ensures Inv(Apply(s, Send(w)))
  {
    var t := Apply(s, Send(w));
    var q := s.workers[w].request;
    assert Held(s, q, w);
    assert forall v: nat, r: nat :: v != w ==> (Held(t, r, v) <==> Held(s, r, v));
    assert forall r: nat :: !Held(t, r, w);
    forall r: nat | r < t.next && r !in t.sent
      ensures exists v: nat :: Held(t, r, v)
    {
      assert t.sent[|s.sent|] == q;
      var v: nat :| Held(s, r, v);
      assert Held(t, r, v);
    }
  }

  /** A step that neither takes nor sends, and ends the offering only with the rest dropped. */
  lemma OtherKept(s: State, t: State)
    requires Inv(s) && t.requests == s.requests && t.next == s.next && t.sent == s.sent && |t.workers| == |s.workers|
    requires forall w: nat, r: nat :: Held(t, r, w) <==> Held(s, r, w)
    requires t.dropped == (if t.sender == Offering then [] else Range(s.next, s.requests))
    ensures Inv(t)
  {
    forall r: nat | r < t.next && r !in t.sent
      ensures exists v: nat :: Held(t, r, v)
    {
      var v: nat :| Held(s, r, v);
      assert Held(t, r, v);
    }
  }

  lemma InvKept(s: State, e: Event)
    requires Inv(s) && Enabled(s, e)
    ensures Inv(Apply(s, e))
  {
    match e
    case Take(w) => TakeKept(s, w);
    case Send(w) => SendKept(s, w);
    case _ =>
      assert Range(s.requests, s.requests) == [];
      OtherKept(s, Apply(s, e));
  }

  lemma {:induction false} InvHolds(requests: nat, workers: nat, events: seq<Event>)
    requires Possible(Init(requests, workers), events)
    ensures var s := After(Init(requests, workers), events); Inv(s) && s.requests == requests && |s.workers| == workers
  {
    hide Inv;
    if events == [] {
      InitInv(requests, workers);
    } else {
      var n := |events| - 1;
      InvHolds(requests, workers, events[..n]);
      InvKept(After(Init(requests, workers), events[..n]), events[n]);
    }
  }

  lemma InitInv(requests: nat, workers: nat)
    ensures Inv(Init(requests, workers))
  {}

  // ----- Accounting -----

  predicate Waiting(s: State, r: nat) {
    s.sender == Offering && s.next <= r < s.requests
  }

  function Holders(workers: seq<Worker>, r: nat): nat {
    if workers == [] then 0 else Holders(workers[..|workers| - 1], r) + One(workers[|workers| - 1] == Holding(r))
  }

  lemma {:induction false} HoldersOne(workers: seq<Worker>, r: nat)
    requires forall v, w :: 0 <= v < w < |workers| ==> workers[v] != Holding(r) || workers[w] != Holding(r)
    ensures Holders(workers, r) == One(exists w :: 0 <= w < |workers| && workers[w] == Holding(r))
  {
    if workers != [] {
      var n := |workers| - 1;
      HoldersOne(workers[..n], r);
      assert forall w :: 0 <= w < n ==> workers[w] == workers[..n][w];
    }
  }

  lemma RangeCounted(a: nat, b: nat, r: nat)
    requires a <= b
    ensures multiset(Range(a, b))[r] == One(a <= r < b)
  {
    CountedOnce(Range(a, b), r);
    if a <= r < b {
      assert Range(a, b)[r - a] == r;
    }
  }

  /**
   * In every interleaving each request is in exactly one place: still to be offered, held by one worker,
   * counted as sent once, or dropped; and the dropped are the requests from some point on.
   */
  lemma RequestsAccountedFor(requests: nat, workers: nat, events: seq<Event>, r: nat)
    requires Possible(Init(requests, workers), events) && r < requests
    ensures var s := After(Init(requests, workers), events);
            && One(Waiting(s, r)) + Holders(s.workers, r) + multiset(s.sent)[r] + multiset(s.dropped)[r] == 1
            && s.next <= requests && (s.dropped == [] || s.dropped == Range(s.next, requests))
  {
    hide Possible, After;
    InvHolds(requests, workers, events);
    var s := After(Init(requests, workers), events);
    assert forall w: nat :: Held(s, r, w) <==> w < |s.workers| && s.workers[w] == Holding(r);
    HoldersOne(s.workers, r);
    CountedOnce(s.sent, r);
    RangeCounted(s.next, s.requests, r);
    if r < s.next && r !in s.sent {
      var w: nat :| Held(s, r, w);
    }
  }

  // ----- When all workers have left -----

  function CountGone(workers: seq<Worker>): nat {
    if workers == [] then 0 else CountGone(workers[..|workers| - 1]) + One(workers[|workers| - 1] == Gone)
  }

  lemma {:induction false} GoneUpdated(workers: seq<Worker>, w: nat, x: Worker)
    requires w < |workers|
    ensures CountGone(workers[w := x]) + One(workers[w] == Gone) == CountGone(workers) + One(x == Gone)
  {
    var n := |workers| - 1;
    if w == n {
      assert workers[w := x][..n] == workers[..n];
    } else {
      assert workers[w := x][..n] == workers[..n][w := x];
      GoneUpdated(workers[..n], w, x);
    }
  }

  lemma {:induction false} AllGone(workers: seq<Worker>)
    ensures CountGone(workers) <= |workers|
    ensures CountGone(workers) == |workers| ==> forall w :: 0 <= w < |workers| ==> workers[w] == Gone
  {
    if workers != [] {
      var n := |workers| - 1;
      AllGone(workers[..n]);
      assert forall w :: 0 <= w < n ==> workers[w] == workers[..n][w];
    }
  }

  lemma {:induction false} CountedHolds(requests: nat, workers: nat, events: seq<Event>)
    requires Possible(Init(requests, workers), events)
    ensures var s := After(Init(requests, workers), events);
            s.completed == CountGone(s.workers) && (s.sender == Offering ==> s.completed == 0)
  {
    if events == [] {
      NoneGone(workers);
    } else {
      var n := |events| - 1;
      var e := events[n];
      CountedHolds(requests, workers, events[..n]);
      var s := After(Init(requests, workers), events[..n]);
      if !e.DropRest? && !e.Close? && !e.StopCounting? {
        GoneUpdated(s.workers, e.w, Apply(s, e).workers[e.w]);
      }
    }
  }

  lemma {:induction false} NoneGone(n: nat)
    ensures CountGone(seq(n, _ => Sleeping)) == 0
  {
    if n > 0 {
      NoneGone(n - 1);
      assert seq(n, _ => Sleeping)[..n - 1] == seq(n - 1, _ => Sleeping);
    }
  }

  /** When all the workers have been counted, every request was sent once or dropped; none is lost in between. */
  lemma AllCountedAllSent(requests: nat, workers: nat, events: seq<Event>, r: nat)
    requires Possible(Init(requests, workers), events) && r < requests
    requires var s := After(Init(requests, workers), events); s.completed == |s.workers| && s.sender != Offering
    ensures var s := After(Init(requests, workers), events); multiset(s.sent)[r] + multiset(s.dropped)[r] == 1
  {
    hide Possible, After;
    InvHolds(requests, workers, events);
    CountedHolds(requests, workers, events);
    RequestsAccountedFor(requests, workers, events, r);
    var s := After(Init(requests, workers), events);
    AllGone(s.workers);
    HoldersOne(s.workers, r);
  }

  // ----- Nothing needs to be dropped -----

  lemma Extend(requests: nat, workers: nat, events: seq<Event>, e: Event) returns (more: seq<Event>)
    requires Possible(Init(requests, workers), events) && Enabled(After(Init(requests, workers), events), e)
    ensures Possible(Init(requests, workers), more)
    ensures After(Init(requests, workers), more) == Apply(After(Init(requests, workers), events), e)
  {
    more := events + [e];
    assert more[..|events|] == events;
  }

  lemma {:induction false} OneByOne(requests: nat, workers: nat, k: nat) returns (events: seq<Event>)
    requires workers > 0 && k <= requests
    ensures Possible(Init(requests, workers), events)
    ensures var s := After(Init(requests, workers), events);
            && s.requests == requests && s.next == k && s.sender == Offering && |s.workers| == workers
            && s.workers[0] == Ready && s.sent == Range(0, k) && s.dropped == []
  {
    hide Possible, After;
    if k == 0 {
      NoEvents(requests, workers);
      events := Extend(requests, workers, [], WakeUp(0));
    } else {
      events := OneByOne(requests, workers, k - 1);
      events := Extend(requests, workers, events, Take(0));
      events := Extend(requests, workers, events, Send(0));
    }
  }

  lemma NoEvents(requests: nat, workers: nat)
    ensures Possible(Init(requests, workers), [])
    ensures After(Init(requests, workers), []) == Init(requests, workers)
  {}

  /** With a worker at all there is a run that sends every request, in order, and drops none. */
  lemma AllCanBeSent(requests: nat, workers: nat) returns (events: seq<Event>)
    requires workers > 0
    ensures Possible(Init(requests, workers), events)
    ensures var s := After(Init(requests, workers), events);
            s.sender == Returned && s.sent == Range(0, requests) && s.dropped == []
  {
    hide Possible, After;
    events := OneByOne(requests, workers, requests);
    events := Extend(requests, workers, events, Close);
    events := Extend(requests, workers, events, StopCounting);
  }
}
