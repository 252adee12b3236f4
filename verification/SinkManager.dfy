/**
 * metrics/sinks/manager.go: the fan-out of batches to sinks as a transition system. One goroutine per
 * sink takes batches and stops; each ExportData and Stop call starts one pushing goroutine per sink.
 */
module SinkManager {
  import opened Core
  import opened Sequences

  /** One pushing goroutine: its select, then its wg.Done. */
  datatype Outcome = NotStarted | Waiting | Accepted | TimedOut
  datatype Push = Push(outcome: Outcome, done: bool) {
    predicate Resolved() {
      outcome.Accepted? || outcome.TimedOut?
    }

    /** Started and not yet done: it holds up wg.Wait. */
    predicate Open() {
      !outcome.NotStarted? && !done
    }
  }

  /** An ExportData call: the goroutines started so far and the wait group. */
  datatype Call<B> = Call(data: B, pushes: seq<Push>, started: nat, wg: nat, returned: bool)

  /** A Stop call: nothing waits for its goroutines. */
  datatype StopCall = StopCall(pushes: seq<Outcome>, started: nat)

  /** A sink's goroutine, the exports it began and finished (by call), and the times it called Stop. */
  datatype Status = Idle | Exporting(call: nat) | Stopping | Stopped
  datatype Sink = Sink(status: Status, begun: seq<nat>, finished: seq<nat>, stops: nat)

  datatype State<B> = State(sinks: seq<Sink>, calls: seq<Call<B>>, stops: seq<StopCall>)

  datatype Event<B> =
    | Begin(data: B)
    | Spawn(call: nat)
    | Handover(call: nat, sink: nat)
    | Timeout(call: nat, sink: nat)
    | Done(call: nat, sink: nat)
    | Return(call: nat)
    | Finish(sink: nat)
    | BeginStop
    | SpawnStop(stop: nat)
    | HandoverStop(stop: nat, sink: nat)
    | TimeoutStop(stop: nat, sink: nat)
    | RunStop(sink: nat)

  const NEW_PUSH := Push(NotStarted, false)

  function Init<B>(n: nat): State<B> {
    State(seq(n, _ => Sink(Idle, [], [], 0)), [], [])
  }

  predicate HasPush<B>(s: State<B>, c: nat, i: nat) {
    c < |s.calls| && i < |s.sinks| && i < |s.calls[c].pushes|
  }

  predicate HasStop<B>(s: State<B>, k: nat, i: nat) {
    k < |s.stops| && i < |s.sinks| && i < |s.stops[k].pushes|
  }

  predicate Enabled<B>(s: State<B>, e: Event<B>) {
    match e
    case Begin(_) => true
    case Spawn(c) => c < |s.calls| && s.calls[c].started < |s.calls[c].pushes|
    case Handover(c, i) => HasPush(s, c, i) && s.calls[c].pushes[i].outcome == Waiting && s.sinks[i].status == Idle
    case Timeout(c, i) => HasPush(s, c, i) && s.calls[c].pushes[i].outcome == Waiting
    case Done(c, i) => HasPush(s, c, i) && s.calls[c].pushes[i].Resolved() && !s.calls[c].pushes[i].done
    case Return(c) =>
      c < |s.calls| && s.calls[c].started == |s.calls[c].pushes| && s.calls[c].wg == 0 && !s.calls[c].returned
    case Finish(i) => i < |s.sinks| && s.sinks[i].status.Exporting?
    case BeginStop => true
    case SpawnStop(k) => k < |s.stops| && s.stops[k].started < |s.stops[k].pushes|
    case HandoverStop(k, i) => HasStop(s, k, i) && s.stops[k].pushes[i] == Waiting && s.sinks[i].status == Idle
    case TimeoutStop(k, i) => HasStop(s, k, i) && s.stops[k].pushes[i] == Waiting
    case RunStop(i) => i < |s.sinks| && s.sinks[i].status == Stopping
  }

  function WithPush<B>(s: State<B>, c: nat, i: nat, p: Push): State<B>
    requires HasPush(s, c, i)
  {
    s.(calls := s.calls[c := s.calls[c].(pushes := s.calls[c].pushes[i := p])])
  }

  function WithSink<B>(s: State<B>, i: nat, k: Sink): State<B>
    requires i < |s.sinks|
  {
    s.(sinks := s.sinks[i := k])
  }

  function WithStop<B>(s: State<B>, k: nat, i: nat, o: Outcome): State<B>
    requires HasStop(s, k, i)
  {
    s.(stops := s.stops[k := s.stops[k].(pushes := s.stops[k].pushes[i := o])])
  }

  function Started<B>(c: Call<B>): Call<B>
    requires c.started < |c.pushes|
  {
    c.(pushes := c.pushes[c.started := Push(Waiting, false)], started := c.started + 1, wg := c.wg + 1)
  }

  function Apply<B>(s: State<B>, e: Event<B>): State<B>
    requires Enabled(s, e)
  {
    match e
    case Begin(b) => s.(calls := s.calls + [Call(b, seq(|s.sinks|, _ => NEW_PUSH), 0, 0, false)])
    case Spawn(c) => s.(calls := s.calls[c := Started(s.calls[c])])
    case Handover(c, i) =>
      WithSink(WithPush(s, c, i, s.calls[c].pushes[i].(outcome := Accepted)), i,
               s.sinks[i].(status := Exporting(c), begun := s.sinks[i].begun + [c]))
    case Timeout(c, i) => WithPush(s, c, i, s.calls[c].pushes[i].(outcome := TimedOut))
    case Done(c, i) =>
      var t := WithPush(s, c, i, s.calls[c].pushes[i].(done := true));
      // Go panics on a negative wait group; the invariant rules it out.
      t.(calls := t.calls[c := t.calls[c].(wg := if t.calls[c].wg > 0 then t.calls[c].wg - 1 else 0)])
    case Return(c) => s.(calls := s.calls[c := s.calls[c].(returned := true)])
    case Finish(i) =>
      WithSink(s, i, s.sinks[i].(status := Idle, finished := s.sinks[i].finished + [s.sinks[i].status.call]))
    case BeginStop => s.(stops := s.stops + [StopCall(seq(|s.sinks|, _ => NotStarted), 0)])
    case SpawnStop(k) =>
      s.(stops := s.stops[k := StopCall(s.stops[k].pushes[s.stops[k].started := Waiting], s.stops[k].started + 1)])
    case HandoverStop(k, i) => WithSink(WithStop(s, k, i, Accepted), i, s.sinks[i].(status := Stopping))
    case TimeoutStop(k, i) => WithStop(s, k, i, TimedOut)
    case RunStop(i) => WithSink(s, i, s.sinks[i].(status := Stopped, stops := s.sinks[i].stops + 1))
  }

  /** A run: each event enabled in its turn. */
  predicate Possible<B>(s: State<B>, events: seq<Event<B>>)
    decreases |events|, 0
  {
    events == [] ||
    (Possible(s, events[..|events| - 1]) && Enabled(After(s, events[..|events| - 1]), events[|events| - 1]))
  }

  function After<B>(s: State<B>, events: seq<Event<B>>): State<B>
    requires Possible(s, events)
    decreases |events|, 1
  {
    if events == [] then s else Apply(After(s, events[..|events| - 1]), events[|events| - 1])
  }

  // ----- The wait group counts the open pushes -----

  function CountOpen(ps: seq<Push>): nat {
    if ps == [] then 0 else CountOpen(ps[..|ps| - 1]) + if ps[|ps| - 1].Open() then 1 else 0
  }

  lemma {:induction false} CountUpdated(ps: seq<Push>, i: nat, p: Push)
    requires i < |ps|
    ensures CountOpen(ps[i := p]) + One(ps[i].Open()) == CountOpen(ps) + One(p.Open())
  {
    var n := |ps| - 1;
    if i == n {
      assert ps[i := p][..n] == ps[..n];
    } else {
      assert ps[i := p][..n] == ps[..n][i := p];
      CountUpdated(ps[..n], i, p);
    }
  }

  lemma {:induction false} CountZero(ps: seq<Push>)
    ensures CountOpen(ps) == 0 <==> forall i :: 0 <= i < |ps| ==> !ps[i].Open()
  {
    if ps != [] {
      var n := |ps| - 1;
      CountZero(ps[..n]);
      assert forall i :: 0 <= i < n ==> ps[i] == ps[..n][i];
    }
  }

  /** A call's bookkeeping: pushes start in order, finish once resolved, and the wait group counts the rest. */
  ghost predicate CallInv<B>(c: Call<B>, n: nat) {
    && |c.pushes| == n && c.started <= n
    && (forall i :: 0 <= i < n ==> (c.pushes[i].outcome.NotStarted? <==> i >= c.started))
    && (forall i :: 0 <= i < n ==> c.pushes[i].done ==> c.pushes[i].Resolved())
    && c.wg == CountOpen(c.pushes)
    && (c.returned ==> c.started == n && c.wg == 0)
  }

  ghost predicate CallsInv<B>(s: State<B>) {
    forall c :: 0 <= c < |s.calls| ==> CallInv(s.calls[c], |s.sinks|)
  }

  lemma NewCall<B>(b: B, n: nat)
    ensures CallInv(Call(b, seq(n, _ => NEW_PUSH), 0, 0, false), n)
  {
    CountZero(seq(n, _ => NEW_PUSH));
  }

  lemma StartedCall<B>(c: Call<B>, n: nat)
    requires CallInv(c, n) && c.started < n
    ensures CallInv(Started(c), n)
  {
    CountUpdated(c.pushes, c.started, Push(Waiting, false));
  }

  /** A push resolves without a change to the count. */
  lemma ResolvedCall<B>(c: Call<B>, n: nat, i: nat, o: Outcome)
    requires CallInv(c, n) && i < n && c.pushes[i].outcome == Waiting && (o.Accepted? || o.TimedOut?)
    ensures CallInv(c.(pushes := c.pushes[i := c.pushes[i].(outcome := o)]), n)
  {
    CountUpdated(c.pushes, i, c.pushes[i].(outcome := o));
  }

  lemma DoneCall<B>(c: Call<B>, n: nat, i: nat)
    requires CallInv(c, n) && i < n && c.pushes[i].Resolved() && !c.pushes[i].done
    ensures c.wg > 0
    ensures CallInv(c.(pushes := c.pushes[i := c.pushes[i].(done := true)], wg := c.wg - 1), n)
  {
    CountUpdated(c.pushes, i, c.pushes[i].(done := true));
  }

  lemma CallsKept<B>(s: State<B>, e: Event<B>)
    requires CallsInv(s) && Enabled(s, e)
    ensures CallsInv(Apply(s, e)) && |Apply(s, e).sinks| == |s.sinks|
  {
    hide CallInv, CountOpen;
    var n := |s.sinks|;
    match e
    case Begin(b) => NewCall(b, n);
    case Spawn(c) =>
      Sized(s, c);
      StartedCall(s.calls[c], n);
    case Handover(c, i) =>
      Sized(s, c);
      ResolvedCall(s.calls[c], n, i, Accepted);
    case Timeout(c, i) =>
      Sized(s, c);
      ResolvedCall(s.calls[c], n, i, TimedOut);
    case Done(c, i) =>
      Sized(s, c);
      DoneCall(s.calls[c], n, i);
    case Return(c) => ReturnedCall(s.calls[c], n);
    case Finish(_) =>
    case BeginStop =>
    case SpawnStop(_) =>
    case HandoverStop(_, _) =>
    case TimeoutStop(_, _) =>
    case RunStop(_) =>
  }

  lemma Sized<B>(s: State<B>, c: nat)
    requires CallsInv(s) && c < |s.calls|
    ensures |s.calls[c].pushes| == |s.sinks|
  {}

  lemma ReturnedCall<B>(c: Call<B>, n: nat)
    requires CallInv(c, n) && c.started == |c.pushes| && c.wg == 0
    ensures CallInv(c.(returned := true), n)
  {}

  // ----- The sinks and the pushes agree -----

  /** Sink i took the batch of call c. */
  predicate Took<B>(s: State<B>, c: nat, i: nat) {
    c < |s.calls| && i < |s.calls[c].pushes| && s.calls[c].pushes[i].outcome == Accepted
  }

  /** Sink i has begun exactly the calls whose push it accepted, each once, and is at most one export behind. */
  ghost predicate SinkInv<B>(s: State<B>, i: nat)
    requires i < |s.sinks|
  {
    var k := s.sinks[i];
    && (forall c: nat :: c in k.begun <==> Took(s, c, i))
    && NoRepeats(k.begun)
    && k.begun == k.finished + (if k.status.Exporting? then [k.status.call] else [])
    && k.stops == (if k.status == Stopped then 1 else 0)
  }

  ghost predicate SinksInv<B>(s: State<B>) {
    forall i :: 0 <= i < |s.sinks| ==> SinkInv(s, i)
  }

  /** Sink i sees the same calls in both states. */
  ghost predicate SameSide<B>(s: State<B>, t: State<B>, i: nat)
    requires i < |s.sinks| && i < |t.sinks|
  {
    && s.sinks[i] == t.sinks[i] && forall c: nat :: Took(s, c, i) <==> Took(t, c, i)
  }

  lemma SameSideKept<B>(s: State<B>, t: State<B>, i: nat)
    requires i < |s.sinks| && i < |t.sinks| && SinkInv(s, i) && SameSide(s, t, i)
    ensures SinkInv(t, i)
  {}

  /** The sinks an event touches. */
  predicate Touches<B>(e: Event<B>, i: nat) {
    match e
    case Handover(_, j) => j == i
    case Finish(j) => j == i
    case HandoverStop(_, j) => j == i
    case RunStop(j) => j == i
    case _ => false
  }

  lemma OthersSame<B>(s: State<B>, e: Event<B>, i: nat)
    requires CallsInv(s) && Enabled(s, e) && i < |s.sinks| && !Touches(e, i)
    ensures i < |Apply(s, e).sinks| && SameSide(s, Apply(s, e), i)
  {
    hide CountOpen;
  }

  lemma TouchedKept<B>(s: State<B>, e: Event<B>, i: nat)
    requires CallsInv(s) && Enabled(s, e) && i < |s.sinks| && SinkInv(s, i) && Touches(e, i)
    ensures i < |Apply(s, e).sinks| && SinkInv(Apply(s, e), i)
  {
    hide CountOpen;
    var t := Apply(s, e);
    match e
    case Handover(c, _) =>
      assert !Took(s, c, i);
      assert forall d: nat :: Took(t, d, i) <==> Took(s, d, i) || d == c;
    case Finish(_) => assert forall d: nat :: Took(t, d, i) <==> Took(s, d, i);
    case HandoverStop(_, _) => assert forall d: nat :: Took(t, d, i) <==> Took(s, d, i);
    case RunStop(_) => assert forall d: nat :: Took(t, d, i) <==> Took(s, d, i);
  }

  lemma SinksKept<B>(s: State<B>, e: Event<B>)
    requires CallsInv(s) && SinksInv(s) && Enabled(s, e)
    ensures SinksInv(Apply(s, e))
  {
    hide SinkInv, CallsInv, Apply, Enabled, SameSide;
    CallsKept(s, e);
    forall i: nat | i < |s.sinks|
      ensures i < |Apply(s, e).sinks| && SinkInv(Apply(s, e), i)
    {
      if Touches(e, i) {
        TouchedKept(s, e, i);
      } else {
        OthersSame(s, e, i);
        SameSideKept(s, Apply(s, e), i);
      }
    }
  }

  ghost predicate Inv<B>(s: State<B>) {
    CallsInv(s) && SinksInv(s)
  }

  lemma {:induction false} InvHolds<B>(n: nat, events: seq<Event<B>>)
    requires Possible(Init(n), events)
    ensures Inv(After(Init(n), events)) && |After(Init(n), events).sinks| == n
  {
    hide CallsInv, SinksInv, Apply, Enabled;
    if events == [] {
      InitInv<B>(n);
    } else {
      var before := events[..|events| - 1];
      InvHolds(n, before);
      CallsKept(After(Init(n), before), events[|events| - 1]);
      SinksKept(After(Init(n), before), events[|events| - 1]);
    }
  }

  lemma InitInv<B>(n: nat)
    ensures Inv<B>(Init(n))
  {}

  // ----- What holds in every reachable state -----

  /**
   * Each sink is behind by at most the one export it is running, gets each call's batch at most once and
   * only if it accepted it, and a call that returned has every push accepted or timed out.
   */
  lemma FanOutSafety<B>(n: nat, events: seq<Event<B>>, c: nat, i: nat)
    requires Possible(Init(n), events) && i < n
    ensures var s := After(Init(n), events);
            && |s.sinks| == n
            && s.sinks[i].finished <= s.sinks[i].begun && |s.sinks[i].begun| <= |s.sinks[i].finished| + 1
            && (|s.sinks[i].begun| > |s.sinks[i].finished| <==> s.sinks[i].status.Exporting?)
            && multiset(s.sinks[i].begun)[c] <= 1
            && (c < |s.calls| ==>
                  && |s.calls[c].pushes| == n
                  && (c in s.sinks[i].begun <==> s.calls[c].pushes[i].outcome == Accepted)
                  && (s.calls[c].returned ==> s.calls[c].pushes[i].Resolved()))
  {
    hide Possible, After, CountOpen;
    InvHolds(n, events);
    var s := After(Init(n), events);
    assert SinkInv(s, i);
    CountedOnce(s.sinks[i].begun, c);
    if c < |s.calls| {
      assert Took(s, c, i) <==> s.calls[c].pushes[i].outcome == Accepted;
      CountZero(s.calls[c].pushes);
    }
  }

  /** What a push came to stays: an accepted one does not time out later, nor the other way round. */
  lemma OutcomeStays<B>(s: State<B>, e: Event<B>, c: nat, i: nat)
    requires CallsInv(s) && Enabled(s, e) && HasPush(s, c, i) && s.calls[c].pushes[i].Resolved()
    ensures HasPush(Apply(s, e), c, i) && Apply(s, e).calls[c].pushes[i].outcome == s.calls[c].pushes[i].outcome
  {
    hide CountOpen;
  }

  /**
   * A call never waits on a sink: unless it has returned, one of its own steps is enabled, and each such
   * step brings it nearer to returning.
   */
  lemma CallNeverBlocked<B>(s: State<B>, c: nat) returns (e: Event<B>)
    requires Inv(s) && c < |s.calls| && !s.calls[c].returned
    ensures Enabled(s, e) && Own(e, c)
    ensures c < |Apply(s, e).calls| && Left(Apply(s, e).calls[c]) < Left(s.calls[c])
  {
    hide CountOpen, SinksInv;
    var call := s.calls[c];
    if call.started < |call.pushes| {
      e := Spawn(c);
      LeftUpdated(call.pushes, call.started, Push(Waiting, false));
    } else if i :| 0 <= i < |call.pushes| && call.pushes[i].Open() {
      if call.pushes[i].outcome == Waiting {
        e := Timeout(c, i);
        LeftUpdated(call.pushes, i, call.pushes[i].(outcome := TimedOut));
      } else {
        e := Done(c, i);
        LeftUpdated(call.pushes, i, call.pushes[i].(done := true));
      }
    } else {
      CountZero(call.pushes);
      e := Return(c);
    }
  }

  /** Steps of call c that need no sink. */
  predicate Own<B>(e: Event<B>, c: nat) {
    match e
    case Spawn(d) => d == c
    case Timeout(d, _) => d == c
    case Done(d, _) => d == c
    case Return(d) => d == c
    case _ => false
  }

  function PushLeft(p: Push): nat {
    if p.done then 0 else if p.outcome.NotStarted? then 3 else if p.outcome.Waiting? then 2 else 1
  }

  function PushesLeft(ps: seq<Push>): nat {
    if ps == [] then 0 else PushesLeft(ps[..|ps| - 1]) + PushLeft(ps[|ps| - 1])
  }

  function Left<B>(c: Call<B>): nat {
    PushesLeft(c.pushes) + if c.returned then 0 else 1
  }

  lemma {:induction false} LeftUpdated(ps: seq<Push>, i: nat, p: Push)
    requires i < |ps|
    ensures PushesLeft(ps[i := p]) + PushLeft(ps[i]) == PushesLeft(ps) + PushLeft(p)
  {
    var n := |ps| - 1;
    if i == n {
      assert ps[i := p][..n] == ps[..n];
    } else {
      assert ps[i := p][..n] == ps[..n][i := p];
      LeftUpdated(ps[..n], i, p);
    }
  }

  // ----- Sinks do not get in each other's way -----

  /** The events that belong to sink i: its own and those of the goroutines pushing to it. */
  predicate Of<B>(e: Event<B>, i: nat) {
    match e
    case Handover(_, j) => j == i
    case Timeout(_, j) => j == i
    case Done(_, j) => j == i
    case Finish(j) => j == i
    case HandoverStop(_, j) => j == i
    case TimeoutStop(_, j) => j == i
    case RunStop(j) => j == i
    case _ => false
  }

  function SinkPart<B>(sinks: seq<Sink>, e: Event<B>): seq<Sink> {
    match e
    case Handover(c, i) => if i < |sinks| then sinks[i := sinks[i].(status := Exporting(c),
        begun := sinks[i].begun + [c])] else sinks
    case Finish(i) =>
      if i < |sinks| && sinks[i].status.Exporting? then
        sinks[i := sinks[i].(status := Idle, finished := sinks[i].finished + [sinks[i].status.call])]
      else sinks
    case HandoverStop(_, i) => if i < |sinks| then sinks[i := sinks[i].(status := Stopping)] else sinks
    case RunStop(i) =>
      if i < |sinks| then sinks[i := sinks[i].(status := Stopped, stops := sinks[i].stops + 1)] else sinks
    case _ => sinks
  }

  function PushPart<B>(p: Push, e: Event<B>): Push {
    match e
    case Handover(_, _) => p.(outcome := Accepted)
    case Timeout(_, _) => p.(outcome := TimedOut)
    case Done(_, _) => p.(done := true)
    case _ => p
  }

  predicate OnPush<B>(e: Event<B>) {
    e.Handover? || e.Timeout? || e.Done?
  }

  function OnCall<B>(c: Call<B>, e: Event<B>): Call<B>
    requires OnPush(e)
  {
    if e.sink >= |c.pushes| then c
    else c.(pushes := c.pushes[e.sink := PushPart(c.pushes[e.sink], e)],
            wg := if e.Done? && c.wg > 0 then c.wg - 1 else c.wg)
  }

  function CallPart<B>(calls: seq<Call<B>>, e: Event<B>): seq<Call<B>> {
    if OnPush(e) && e.call < |calls| then calls[e.call := OnCall(calls[e.call], e)] else calls
  }

  predicate OnStopPush<B>(e: Event<B>) {
    e.HandoverStop? || e.TimeoutStop?
  }

  function StopOutcome<B>(e: Event<B>): Outcome {
    if e.HandoverStop? then Accepted else TimedOut
  }

  function OnStop(c: StopCall, i: nat, o: Outcome): StopCall {
    if i >= |c.pushes| then c else c.(pushes := c.pushes[i := o])
  }

  function StopPart<B>(stops: seq<StopCall>, e: Event<B>): seq<StopCall> {
    if OnStopPush(e) && e.stop < |stops| then stops[e.stop := OnStop(stops[e.stop], e.sink, StopOutcome(e))] else stops
  }

  /** A step of one sink acts on each part of the state by itself. */
  lemma ByParts<B>(s: State<B>, e: Event<B>, i: nat)
    requires Of(e, i) && Enabled(s, e)
    ensures Apply(s, e) == State(SinkPart(s.sinks, e), CallPart(s.calls, e), StopPart(s.stops, e))
  {}

  lemma SinkPartsCommute<B>(sinks: seq<Sink>, e: Event<B>, f: Event<B>, i: nat, j: nat)
    requires Of(e, i) && Of(f, j) && i != j
    ensures SinkPart(SinkPart(sinks, e), f) == SinkPart(SinkPart(sinks, f), e)
  {
    assert |SinkPart(SinkPart(sinks, e), f)| == |SinkPart(SinkPart(sinks, f), e)|;
  }

  lemma OnCallCommutes<B>(c: Call<B>, e: Event<B>, f: Event<B>)
    requires OnPush(e) && OnPush(f) && e.sink != f.sink
    ensures OnCall(OnCall(c, e), f) == OnCall(OnCall(c, f), e)
  {
    hide PushPart;
    var ps, i, j := c.pushes, e.sink, f.sink;
    if i < |ps| && j < |ps| {
      assert ps[i := PushPart(ps[i], e)][j := PushPart(ps[j], f)] ==
             ps[j := PushPart(ps[j], f)][i := PushPart(ps[i], e)];
    }
  }

  lemma CallPartsCommute<B>(calls: seq<Call<B>>, e: Event<B>, f: Event<B>, i: nat, j: nat)
    requires Of(e, i) && Of(f, j) && i != j
    ensures CallPart(CallPart(calls, e), f) == CallPart(CallPart(calls, f), e)
  {
    hide OnCall;
    if OnPush(e) && OnPush(f) && e.call < |calls| && f.call < |calls| {
      if e.call == f.call {
        OnCallCommutes(calls[e.call], e, f);
      } else {
        assert CallPart(CallPart(calls, e), f) == CallPart(CallPart(calls, f), e);
      }
    }
  }

  lemma OnStopCommutes(c: StopCall, i: nat, o: Outcome, j: nat, p: Outcome)
    requires i != j
    ensures OnStop(OnStop(c, i, o), j, p) == OnStop(OnStop(c, j, p), i, o)
  {
    if i < |c.pushes| && j < |c.pushes| {
      assert c.pushes[i := o][j := p] == c.pushes[j := p][i := o];
    }
  }

  lemma StopPartsCommute<B>(stops: seq<StopCall>, e: Event<B>, f: Event<B>, i: nat, j: nat)
    requires Of(e, i) && Of(f, j) && i != j
    ensures StopPart(StopPart(stops, e), f) == StopPart(StopPart(stops, f), e)
  {
    hide OnStop;
    if OnStopPush(e) && OnStopPush(f) && e.stop < |stops| && f.stop < |stops| {
      if e.stop == f.stop {
        OnStopCommutes(stops[e.stop], e.sink, StopOutcome(e), f.sink, StopOutcome(f));
      } else {
        assert StopPart(StopPart(stops, e), f) == StopPart(StopPart(stops, f), e);
      }
    }
  }

  /** Sink i and the goroutines pushing to it are as they were. */
  ghost predicate SameCorner<B>(s: State<B>, t: State<B>, i: nat) {
    && |s.sinks| == |t.sinks| && (i < |s.sinks| ==> s.sinks[i] == t.sinks[i])
    && |s.calls| == |t.calls|
    && (forall c :: 0 <= c < |s.calls| ==> SamePushes(s.calls[c].pushes, t.calls[c].pushes, i))
    && |s.stops| == |t.stops|
    && (forall c :: 0 <= c < |s.stops| ==> SamePushes(s.stops[c].pushes, t.stops[c].pushes, i))
  }

  ghost predicate SamePushes<P>(a: seq<P>, b: seq<P>, i: nat) {
    |a| == |b| && (i < |a| ==> a[i] == b[i])
  }

  lemma OtherCornerSame<B>(s: State<B>, f: Event<B>, i: nat, j: nat)
    requires Of(f, j) && i != j && Enabled(s, f)
    ensures SameCorner(s, Apply(s, f), i)
  {}

  lemma CornerDecides<B>(s: State<B>, t: State<B>, e: Event<B>, i: nat)
    requires Of(e, i) && SameCorner(s, t, i)
    ensures Enabled(s, e) <==> Enabled(t, e)
  {}

  lemma StillEnabled<B>(s: State<B>, e: Event<B>, f: Event<B>, i: nat, j: nat)
    requires Of(e, i) && Of(f, j) && i != j && Enabled(s, f)
    ensures Enabled(Apply(s, f), e) <==> Enabled(s, e)
  {
    hide Of, Enabled, Apply, SameCorner;
    OtherCornerSame(s, f, i, j);
    CornerDecides(s, Apply(s, f), e, i);
  }

  /** Whether a step of sink i can happen does not depend on what another sink does, and the two commute. */
  lemma SinksIndependent<B>(s: State<B>, e: Event<B>, f: Event<B>, i: nat, j: nat)
    requires Of(e, i) && Of(f, j) && i != j && Enabled(s, f)
    ensures Enabled(Apply(s, f), e) <==> Enabled(s, e)
    ensures Enabled(s, e) ==> Enabled(Apply(s, e), f) && Apply(Apply(s, e), f) == Apply(Apply(s, f), e)
  {
    hide Enabled, Apply, Of, SinkPart, CallPart, StopPart;
    StillEnabled(s, e, f, i, j);
    if Enabled(s, e) {
      StillEnabled(s, f, e, j, i);
      ByParts(s, e, i);
      ByParts(s, f, j);
      ByParts(Apply(s, e), f, j);
      ByParts(Apply(s, f), e, i);
      SinkPartsCommute(s.sinks, e, f, i, j);
      CallPartsCommute(s.calls, e, f, i, j);
      StopPartsCommute(s.stops, e, f, i, j);
    }
  }

  /** Nor on the state another sink is in. */
  lemma OtherSinkIrrelevant<B>(s: State<B>, e: Event<B>, i: nat, j: nat, other: Sink)
    requires Of(e, i) && i != j && j < |s.sinks|
    ensures Enabled(s, e) <==> Enabled(WithSink(s, j, other), e)
    ensures Enabled(s, e) ==> Apply(WithSink(s, j, other), e) == WithSink(Apply(s, e), j, other)
  {}

  // ----- Stopping -----

  ghost predicate StopTaken<B>(s: State<B>, i: nat) {
    i < |s.sinks| && (s.sinks[i].status == Stopping || s.sinks[i].status == Stopped)
  }

  lemma StopIsFinal<B>(s: State<B>, e: Event<B>, i: nat)
    requires StopTaken(s, i) && Enabled(s, e)
    ensures StopTaken(Apply(s, e), i) && Apply(s, e).sinks[i].begun == s.sinks[i].begun
    ensures s.sinks[i].status == Stopped ==> Apply(s, e).sinks[i] == s.sinks[i]
  {}

  /** Once a sink takes a stop it never exports again on any later run, and is stopped once and no more. */
  lemma {:induction false} StoppedForGood<B>(n: nat, events: seq<Event<B>>, later: seq<Event<B>>, i: nat)
    requires Possible(Init(n), events) && StopTaken(After(Init(n), events), i)
    requires Possible(Init(n), events + later)
    ensures var s, t := After(Init(n), events), After(Init(n), events + later);
            && StopTaken(t, i) && t.sinks[i].begun == s.sinks[i].begun
            && t.sinks[i].stops == (if t.sinks[i].status == Stopped then 1 else 0)
            && (s.sinks[i].status == Stopped ==> t.sinks[i].status == Stopped)
  {
    hide Apply, Enabled, CallsInv;
    InvHolds(n, events + later);
    if later == [] {
      assert events + later == events;
    } else {
      var m := |later| - 1;
      assert (events + later)[..|events + later| - 1] == events + later[..m];
      StoppedForGood(n, events, later[..m], i);
      StopIsFinal(After(Init(n), events + later[..m]), later[m], i);
    }
    assert SinkInv(After(Init(n), events + later), i);
  }

  // ----- One caller at a time -----

  /** Every call but the last has returned. */
  predicate OneCaller<B>(s: State<B>) {
    forall c :: 0 <= c < |s.calls| - 1 ==> s.calls[c].returned
  }

  /** A caller that waits for each call before the next. */
  predicate Sequential<B>(s: State<B>, events: seq<Event<B>>)
    requires Possible(s, events)
  {
    forall k :: 0 <= k < |events| && events[k].Begin? ==>
      Possible(s, events[..k]) &&
      forall c :: 0 <= c < |After(s, events[..k]).calls| ==> After(s, events[..k]).calls[c].returned
  }

  ghost predicate Ascending(s: seq<nat>) {
    forall i, j :: 0 <= i < j < |s| ==> s[i] < s[j]
  }

  ghost predicate InOrder<B>(s: State<B>) {
    OneCaller(s) && forall i :: 0 <= i < |s.sinks| ==> Ascending(s.sinks[i].begun)
  }

  lemma InOrderKept<B>(s: State<B>, e: Event<B>)
    requires Inv(s) && InOrder(s) && Enabled(s, e)
    requires e.Begin? ==> forall c :: 0 <= c < |s.calls| ==> s.calls[c].returned
    ensures InOrder(Apply(s, e))
  {
    hide CountOpen, Ascending;
    if e.Handover? {
      var c, i := e.call, e.sink;
      CountZero(s.calls[c].pushes);
      assert c == |s.calls| - 1;
      assert SinkInv(s, i) && !Took(s, c, i);
      assert forall d: nat :: d in s.sinks[i].begun ==> Took(s, d, i);
      AscendingGrows(s.sinks[i].begun, c);
    }
  }

  lemma AscendingGrows(s: seq<nat>, c: nat)
    requires Ascending(s) && forall d :: d in s ==> d < c
    ensures Ascending(s + [c])
  {
    assert forall i :: 0 <= i < |s| ==> s[i] in s;
  }

  lemma {:induction false} InOrderHolds<B>(n: nat, events: seq<Event<B>>)
    requires Possible(Init(n), events) && Sequential(Init(n), events)
    ensures InOrder(After(Init(n), events))
  {
    hide Apply, Enabled, Inv;
    if events == [] {
      InitInOrder<B>(n);
    } else {
      var m := |events| - 1;
      var before := events[..m];
      assert Sequential(Init(n), before) by {
        assert forall k :: 0 <= k < m ==> events[k] == before[k] && before[..k] == events[..k];
      }
      InOrderHolds(n, before);
      InvHolds(n, before);
      InOrderKept(After(Init(n), before), events[m]);
    }
  }

  lemma InitInOrder<B>(n: nat)
    ensures InOrder<B>(Init(n))
  {}

  /**
   * With one caller, a sink exports the batches of ascending calls, those it accepted: an in-order
   * subsequence of the offered.
   */
  lemma ExportsAreSubsequence<B>(n: nat, events: seq<Event<B>>, i: nat)
    requires Possible(Init(n), events) && Sequential(Init(n), events) && i < n
    ensures var s := After(Init(n), events);
            && |s.sinks| == n && Ascending(s.sinks[i].begun)
            && forall k :: 0 <= k < |s.sinks[i].begun| ==> Took(s, s.sinks[i].begun[k], i)
  {
    hide Possible, After, CountOpen, Sequential;
    InOrderHolds(n, events);
    InvHolds(n, events);
    var s := After(Init(n), events);
    assert SinkInv(s, i);
    forall k | 0 <= k < |s.sinks[i].begun|
      ensures Took(s, s.sinks[i].begun[k], i)
    {
      assert s.sinks[i].begun[k] in s.sinks[i].begun;
    }
  }

  lemma OneMore<B>(s: State<B>, events: seq<Event<B>>, e: Event<B>)
    requires Possible(s, events) && Enabled(After(s, events), e)
    ensures Possible(s, events + [e]) && After(s, events + [e]) == Apply(After(s, events), e)
  {
    hide Enabled, Apply;
    assert (events + [e])[..|events|] == events;
  }

  // ----- Several callers at once -----

  /** The calls that have not returned. */
  function Unreturned<B>(calls: seq<Call<B>>): nat {
    if calls == [] then 0 else Unreturned(calls[..|calls| - 1]) + One(!calls[|calls| - 1].returned)
  }

  lemma {:induction false} AllReturned<B>(calls: seq<Call<B>>)
    requires Unreturned(calls) == 0
    ensures forall c :: 0 <= c < |calls| ==> calls[c].returned
  {
    if calls != [] {
      var n := |calls| - 1;
      AllReturned(calls[..n]);
      assert forall c :: 0 <= c < n ==> calls[c] == calls[..n][c];
    }
  }

  /** No call begins while k others have not returned. */
  predicate AtMost<B>(s: State<B>, events: seq<Event<B>>, k: nat)
    requires Possible(s, events)
  {
    forall i :: 0 <= i < |events| && events[i].Begin? ==>
      Possible(s, events[..i]) && Unreturned(After(s, events[..i]).calls) < k
  }

  lemma OneAtATime<B>(s: State<B>, events: seq<Event<B>>, k: nat)
    requires Possible(s, events) && AtMost(s, events, k) && k <= 1
    ensures Sequential(s, events)
  {
    hide Possible, After;
    forall i | 0 <= i < |events| && events[i].Begin?
      ensures Possible(s, events[..i])
      ensures forall c :: 0 <= c < |After(s, events[..i]).calls| ==> After(s, events[..i]).calls[c].returned
    {
      AllReturned(After(s, events[..i]).calls);
    }
  }

  lemma NoEvents<B>(n: nat)
    ensures Possible<B>(Init(n), []) && After<B>(Init(n), []) == Init(n) && forall k :: AtMost<B>(Init(n), [], k)
  {}

  lemma Extend<B>(n: nat, k: nat, events: seq<Event<B>>, e: Event<B>) returns (more: seq<Event<B>>)
    requires Possible(Init(n), events) && AtMost(Init(n), events, k) && Enabled(After(Init(n), events), e)
    requires e.Begin? ==> Unreturned(After(Init(n), events).calls) < k
    ensures Possible(Init(n), more) && After(Init(n), more) == Apply(After(Init(n), events), e)
    ensures AtMost(Init(n), more, k)
  {
    hide Enabled, Apply, Possible, After;
    OneMore(Init(n), events, e);
    more := events + [e];
    forall i | 0 <= i < |more| && more[i].Begin?
      ensures Possible(Init(n), more[..i]) && Unreturned(After(Init(n), more[..i]).calls) < k
    {
      assert more[..i] == events[..i];
      assert i == |events| ==> events[..i] == events;
    }
  }

  /** With two callers at once a sink can export the later batch first, whatever the number of sinks. */
  lemma OverlappingCallsCanSwap<B>(n: nat, k: nat, a: B, b: B) returns (events: seq<Event<B>>)
    requires n > 0 && k >= 2
    ensures Possible(Init(n), events) && AtMost(Init(n), events, k)
    ensures var sinks := After(Init(n), events).sinks; |sinks| == n && sinks[0].begun == [1, 0]
  {
    hide Possible, After, AtMost;
    NoEvents<B>(n);
    events := [];
    events := Extend(n, k, events, Begin(a));
    events := Extend(n, k, events, Spawn(0));
    assert Unreturned(After(Init(n), events).calls) == 1 by {
      OneUnreturned(After(Init(n), events).calls);
    }
    events := Extend(n, k, events, Begin(b));
    events := Extend(n, k, events, Spawn(1));
    events := Extend(n, k, events, Handover(1, 0));
    assert After(Init(n), events).sinks[0] == Sink(Exporting(1), [1], [], 0);
    events := Extend(n, k, events, Finish(0));
    assert After(Init(n), events).sinks[0] == Sink(Idle, [1], [1], 0);
    events := Extend(n, k, events, Handover(0, 0));
    assert After(Init(n), events).sinks[0] == Sink(Exporting(0), [1, 0], [1], 0);
  }

  lemma OneUnreturned<B>(calls: seq<Call<B>>)
    requires |calls| == 1 && !calls[0].returned
    ensures Unreturned(calls) == 1
  {
    assert calls[..0] == [];
  }

  /** With at most k callers every sink exports in the order of the calls, on every run. */
  ghost predicate InOrderUnder<B(!new)>(n: nat, k: nat) {
    forall events: seq<Event<B>> :: Possible(Init(n), events) && AtMost(Init(n), events, k) ==>
      forall i :: 0 <= i < |After(Init(n), events).sinks| ==> Ascending(After(Init(n), events).sinks[i].begun)
  }

  /** Every run keeps the order of the calls at every sink if and only if no two calls are under way at once. */
  lemma InOrderExactlyWhen<B(!new)>(n: nat, k: nat, a: B)
    requires n > 0
    ensures InOrderUnder<B>(n, k) <==> k <= 1
  {
    hide Possible, After, AtMost, Ascending;
    if k <= 1 {
      forall events: seq<Event<B>> | Possible(Init(n), events) && AtMost(Init(n), events, k)
        ensures forall i :: 0 <= i < |After(Init(n), events).sinks| ==> Ascending(After(Init(n), events).sinks[i].begun)
      {
        OneAtATime(Init(n), events, k);
        InOrderHolds(n, events);
      }
    } else {
      var events := OverlappingCallsCanSwap(n, k, a, a);
      NotAscending(After(Init(n), events).sinks[0].begun);
    }
  }

  lemma NotAscending(s: seq<nat>)
    requires |s| >= 2 && s[0] >= s[1]
    ensures !Ascending(s)
  {}
}
