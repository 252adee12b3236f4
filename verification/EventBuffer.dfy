/**
 * events/sources/kubernetes/kubernetes_source.go: the bounded buffer between the watch loop, which never
 * waits to put, and GetNewEvents, which takes until there is nothing left.
 */
module EventBuffer {
  import opened Core
  import opened Sequences

  const CAPACITY := 100000

  datatype Kind = Added | Modified | Deleted | Error | Other

  /** An update from the watch; its object may not be an event. */
  datatype Update<E> = Update(kind: Kind, object_: Option<E>) {
    /** Something to put into the buffer. */
    predicate Offers() {
      (kind == Added || kind == Modified) && object_.Some?
    }
  }

  /**
   * The buffer, the batch a reader is filling if one is, the batches returned, and the events put and not
   * put into the buffer.
   */
  datatype State<E> = State(buffer: seq<E>, reading: Option<seq<E>>, returned: seq<seq<E>>,
                            accepted: seq<E>, dropped: seq<E>)

  datatype Event<E> = Watch(update: Update<E>) | StartRead | Pop | FinishRead

  function Init<E>(): State<E> {
    State([], None, [], [], [])
  }

  predicate Enabled<E>(s: State<E>, e: Event<E>) {
    match e
    case Watch(_) => true
    case StartRead => s.reading.None?
    case Pop => s.reading.Some? && s.buffer != []
    case FinishRead => s.reading.Some? && s.buffer == []
  }

  function Apply<E>(s: State<E>, e: Event<E>): State<E>
    requires Enabled(s, e)
  {
    match e
    case Watch(u) =>
      if !u.Offers() then s
      else if |s.buffer| < CAPACITY
      then s.(buffer := s.buffer + [u.object_.value], accepted := s.accepted + [u.object_.value])
      else s.(dropped := s.dropped + [u.object_.value])
    case StartRead => s.(reading := Some([]))
    case Pop => s.(buffer := s.buffer[1..], reading := Some(s.reading.value + [s.buffer[0]]))
    case FinishRead => s.(reading := None, returned := s.returned + [s.reading.value])
  }

  predicate Possible<E>(events: seq<Event<E>>)
    decreases |events|, 0
  {
    events == [] || (Possible(events[..|events| - 1]) && Enabled(After(events[..|events| - 1]), events[|events| - 1]))
  }

  function After<E>(events: seq<Event<E>>): State<E>
    requires Possible(events)
    decreases |events|, 1
  {
    if events == [] then Init() else Apply(After(events[..|events| - 1]), events[|events| - 1])
  }

  /** The events offered by a run, in order. */
  function Offered<E>(events: seq<Event<E>>): seq<E> {
    if events == [] then []
    else
      var e := events[|events| - 1];
      Offered(events[..|events| - 1]) + if e.Watch? && e.update.Offers() then [e.update.object_.value] else []
  }

  function Pops<E>(events: seq<Event<E>>): nat {
    if events == [] then 0 else Pops(events[..|events| - 1]) + if events[|events| - 1].Pop? then 1 else 0
  }

  function Taken<E>(s: State<E>): seq<E> {
    Concat(s.returned) + if s.reading.Some? then s.reading.value else []
  }

  ghost predicate Inv<E>(s: State<E>) {
    Taken(s) + s.buffer == s.accepted && |s.buffer| <= CAPACITY
  }

  lemma InvKept<E>(s: State<E>, e: Event<E>)
    requires Inv(s) && Enabled(s, e)
    ensures Inv(Apply(s, e))
    ensures e.FinishRead? ==> Concat(Apply(s, e).returned) == s.accepted
  {
    var t := Apply(s, e);
    match e
    case Watch(u) =>
      if u.Offers() {
        assert Taken(s) + (s.buffer + [u.object_.value]) == Taken(s) + s.buffer + [u.object_.value];
      }
    case StartRead =>
      assert Taken(t) == Taken(s);
    case Pop =>
      assert s.buffer == [s.buffer[0]] + s.buffer[1..];
      assert Taken(t) == Taken(s) + [s.buffer[0]];
    case FinishRead =>
      assert t.returned[..|s.returned|] == s.returned;
      assert Taken(t) == Concat(t.returned) == Taken(s);
      assert Taken(s) + [] == Taken(s);
  }

  /**
   * In every interleaving the batches returned, the one being filled and the buffer make up the accepted
   * events in order; the buffer is bounded.
   */
  lemma {:induction false} DeliveredInOrder<E>(events: seq<Event<E>>)
    requires Possible(events)
    ensures Inv(After(events))
  {
    hide Inv, Apply, Enabled;
    if events == [] {
      assert Inv<E>(Init()) by {
        InitInv<E>();
      }
    } else {
      var n := |events| - 1;
      DeliveredInOrder(events[..n]);
      InvKept(After(events[..n]), events[n]);
    }
  }

  lemma InitInv<E>()
    ensures Inv<E>(Init())
  {}

  /** When a read finishes, all that was accepted has been returned. */
  lemma ReadReturnsAll<E>(events: seq<Event<E>>)
    requires events != [] && Possible(events) && events[|events| - 1].FinishRead?
    ensures Concat(After(events).returned) == After(events).accepted
  {
    hide Inv, Concat;
    DeliveredInOrder(events[..|events| - 1]);
    InvKept(After(events[..|events| - 1]), events[|events| - 1]);
  }

  /** Which of the offered events were accepted, in order. */
  function Select<E>(offered: seq<E>, taken: seq<bool>, which: bool): seq<E>
    requires |taken| == |offered|
  {
    if offered == [] then []
    else
      var n := |offered| - 1;
      Select(offered[..n], taken[..n], which) + if taken[n] == which then [offered[n]] else []
  }

  lemma SelectGrows<E>(offered: seq<E>, taken: seq<bool>, x: E, b: bool, which: bool)
    requires |taken| == |offered|
    ensures Select(offered + [x], taken + [b], which) == Select(offered, taken, which) + if b == which then [x] else []
  {
    assert (offered + [x])[..|offered|] == offered && (taken + [b])[..|taken|] == taken;
  }

  lemma {:induction false} SelectSplits<E>(offered: seq<E>, taken: seq<bool>)
    requires |taken| == |offered|
    ensures multiset(Select(offered, taken, true)) + multiset(Select(offered, taken, false)) == multiset(offered)
  {
    if offered != [] {
      var n := |offered| - 1;
      SelectSplits(offered[..n], taken[..n]);
      assert offered == offered[..n] + [offered[n]];
    }
  }

  lemma {:induction false} SplitBy<E>(events: seq<Event<E>>) returns (taken: seq<bool>)
    requires Possible(events)
    ensures |taken| == |Offered(events)|
    ensures After(events).accepted == Select(Offered(events), taken, true)
    ensures After(events).dropped == Select(Offered(events), taken, false)
  {
    hide Select;
    if events == [] {
      taken := [];
      SelectNone<E>();
    } else {
      var n := |events| - 1;
      taken := SplitBy(events[..n]);
      var s, e, offered := After(events[..n]), events[n], Offered(events[..n]);
      if e.Watch? && e.update.Offers() {
        var x, b := e.update.object_.value, |s.buffer| < CAPACITY;
        SelectGrows(offered, taken, x, b, true);
        SelectGrows(offered, taken, x, b, false);
        taken := taken + [b];
      } else {
        assert Offered(events) == offered;
      }
    }
  }

  lemma SelectNone<E>()
    ensures Select<E>([], [], true) == [] && Select<E>([], [], false) == []
  {}

  /** An update that says an event was added or modified. */
  predicate IsNews<E>(e: Event<E>) {
    e.Watch? && (e.update.kind == Added || e.update.kind == Modified) && e.update.object_.Some?
  }

  /** The events at the positions f of a run, which are updates with an event. */
  ghost predicate AreObjects<E>(offered: seq<E>, events: seq<Event<E>>, f: seq<nat>) {
    && |offered| == |f|
    && forall i :: 0 <= i < |f| ==>
         f[i] < |events| && IsNews(events[f[i]]) && offered[i] == events[f[i]].update.object_.value
  }

  /** What is offered: the events of the updates that say added or modified, in order. */
  lemma {:induction false} OfferedByKind<E>(events: seq<Event<E>>) returns (f: seq<nat>)
    ensures Picks(f, events, IsNews) && AreObjects(Offered(events), events, f)
  {
    hide Picks, AreObjects, IsNews;
    if events == [] {
      f := [];
      NoNews<E>();
    } else {
      var n := |events| - 1;
      f := OfferedByKind(events[..n]);
      f := OneMoreUpdate(Offered(events[..n]), events[..n], f, events[n]);
      assert events == events[..n] + [events[n]];
      OfferedNext(events);
    }
  }

  lemma OfferedNext<E>(events: seq<Event<E>>)
    requires events != []
    ensures var e, before := events[|events| - 1], Offered(events[..|events| - 1]);
            Offered(events) == if e.Watch? && e.update.Offers() then before + [e.update.object_.value] else before
  {}

  lemma NoNews<E>()
    ensures Picks([], [], IsNews<E>) && AreObjects<E>([], [], [])
  {}

  lemma OneMoreUpdate<E>(offered: seq<E>, events: seq<Event<E>>, f: seq<nat>, e: Event<E>) returns (g: seq<nat>)
    requires Picks(f, events, IsNews) && AreObjects(offered, events, f)
    ensures Picks(g, events + [e], IsNews)
    ensures AreObjects(if e.Watch? && e.update.Offers() then offered + [e.update.object_.value] else offered,
                       events + [e], g)
  {
    hide Picks;
    PicksNext(f, events, e, IsNews);
    g := if IsNews(e) then f + [|events|] else f;
  }

  /** Accepted and dropped split the added and modified events between them, each in order. */
  lemma AcceptedOrDropped<E>(events: seq<Event<E>>) returns (offered: seq<E>, f: seq<nat>, taken: seq<bool>)
    requires Possible(events)
    ensures Picks(f, events, IsNews) && AreObjects(offered, events, f) && |taken| == |offered|
    ensures After(events).accepted == Select(offered, taken, true)
    ensures After(events).dropped == Select(offered, taken, false)
    ensures multiset(After(events).accepted) + multiset(After(events).dropped) == multiset(offered)
  {
    hide Possible, After, Select, Offered;
    offered := Offered(events);
    f := OfferedByKind(events);
    taken := SplitBy(events);
    SelectSplits(offered, taken);
  }

  lemma {:induction false} BufferCounts<E>(events: seq<Event<E>>)
    requires Possible(events)
    ensures |After(events).buffer| == |After(events).accepted| - Pops(events)
  {
    if events != [] {
      BufferCounts(events[..|events| - 1]);
    }
  }

  /** An offered event is dropped exactly when the buffer holds its capacity: accepted less popped so far. */
  lemma DroppedExactlyWhenFull<E>(events: seq<Event<E>>, u: Update<E>)
    requires Possible(events) && (u.kind == Added || u.kind == Modified) && u.object_.Some?
    ensures Possible(events + [Watch(u)])
    ensures var s, t := After(events), After(events + [Watch(u)]);
            if |s.accepted| - Pops(events) == 100000
            then t == s.(dropped := s.dropped + [u.object_.value])
            else t == s.(accepted := s.accepted + [u.object_.value], buffer := s.buffer + [u.object_.value])
  {
    hide Inv;
    DeliveredInOrder(events);
    BufferCounts(events);
    BufferBounded(After(events));
    assert (events + [Watch(u)])[..|events|] == events;
  }

  lemma BufferBounded<E>(s: State<E>)
    requires Inv(s)
    ensures |s.buffer| <= CAPACITY
  {}

  // ----- One read, with updates arriving between its takes -----

  function Put<E>(buffer: seq<E>, u: Update<E>): seq<E> {
    if u.Offers() && |buffer| < CAPACITY then buffer + [u.object_.value] else buffer
  }

  function PutAll<E>(buffer: seq<E>, updates: seq<Update<E>>): seq<E> {
    if updates == [] then buffer
    else Put(PutAll(buffer, updates[..|updates| - 1]), updates[|updates| - 1])
  }

  /** What a read takes when the updates of arrivals[i] come after its i-th take. */
  function Drained<E>(buffer: seq<E>, arrivals: seq<seq<Update<E>>>): seq<E>
    decreases |arrivals|
  {
    if buffer == [] || arrivals == [] then buffer
    else [buffer[0]] + Drained(PutAll(buffer[1..], arrivals[0]), arrivals[1..])
  }

  lemma DrainedNone<E>(arrivals: seq<seq<Update<E>>>)
    ensures Drained([], arrivals) == []
  {}

  lemma DrainedNext<E>(buffer: seq<E>, arrivals: seq<seq<Update<E>>>)
    requires buffer != []
    ensures Drained(buffer, arrivals) == [buffer[0]] +
              if arrivals == [] then Drained(buffer[1..], [])
              else Drained(PutAll(buffer[1..], arrivals[0]), arrivals[1..])
  {}

  lemma OneMore<E>(events: seq<Event<E>>, e: Event<E>)
    requires Possible(events) && Enabled(After(events), e)
    ensures Possible(events + [e]) && After(events + [e]) == Apply(After(events), e)
  {
    assert (events + [e])[..|events|] == events;
  }

  /** Updates extend a run; the batch being filled and those returned stay as they are. */
  lemma {:induction false} PutAllIsARun<E>(events: seq<Event<E>>, updates: seq<Update<E>>) returns (more: seq<Event<E>>)
    requires Possible(events)
    ensures events <= more && Possible(more)
    ensures var s, t := After(events), After(more);
            t.buffer == PutAll(s.buffer, updates) && t.reading == s.reading && t.returned == s.returned
  {
    if updates == [] {
      more := events;
    } else {
      var n := |updates| - 1;
      var some := PutAllIsARun(events, updates[..n]);
      OneMore(some, Watch(updates[n]));
      more := some + [Watch(updates[n])];
    }
  }

  /**
   * From any point of a run at which a read is under way, the run can go on so that the read returns what it
   * has and what Drained says: each call of GetNewEvents is part of an interleaving.
   */
  lemma {:induction false} DrainIsARun<E>(events: seq<Event<E>>, arrivals: seq<seq<Update<E>>>)
      returns (more: seq<Event<E>>)
    requires Possible(events) && After(events).reading.Some?
    ensures events < more && Possible(more) && more[|more| - 1].FinishRead?
    ensures var s := After(events);
            After(more).returned == s.returned + [s.reading.value + Drained(s.buffer, arrivals)]
    decreases |arrivals|, |After(events).buffer|
  {
    hide Possible, After, PutAll;
    var s := After(events);
    if s.buffer == [] {
      OneMore(events, FinishRead);
      more := events + [FinishRead];
      assert s.reading.value + Drained(s.buffer, arrivals) == s.reading.value;
    } else {
      OneMore(events, Pop);
      DrainedNext(s.buffer, arrivals);
      var popped := events + [Pop];
      var rest := arrivals;
      if arrivals == [] {
        more := DrainIsARun(popped, []);
      } else {
        popped := PutAllIsARun(popped, arrivals[0]);
        rest := arrivals[1..];
        more := DrainIsARun(popped, rest);
      }
      JoinedOn(s.reading.value, [s.buffer[0]], Drained(After(popped).buffer, rest));
    }
  }

  lemma JoinedOn<E>(a: seq<E>, b: seq<E>, c: seq<E>)
    ensures a + b + c == a + (b + c)
  {}

  // ----- The two ends of the buffer -----

  class KubernetesEventSource<E> {
    var localEventsBuffer: seq<E>

    ghost predicate Valid()
      reads this
    {
      |localEventsBuffer| <= CAPACITY
    }

    constructor ()
      ensures Valid() && localEventsBuffer == []
    {
      localEventsBuffer := [];
    }

    /** One update in the watch loop; false when an event had to be dropped. */
    method Process(update: Update<E>) returns (kept: bool)
      requires Valid()
      modifies this
      ensures Valid()
      ensures kept <==> update.Offers() ==> |old(localEventsBuffer)| < CAPACITY
      ensures localEventsBuffer ==
              old(localEventsBuffer) + if update.Offers() && kept then [update.object_.value] else []
    {
      kept := true;
      if update.kind != Error && update.object_.Some? {
        match update.kind {
          case Added | Modified =>
            if |localEventsBuffer| < CAPACITY {
              localEventsBuffer := localEventsBuffer + [update.object_.value];
            } else {
              kept := false;
            }
          case _ =>
        }
      }
    }

    /** Updates in the watch loop, one after the other. */
    method ProcessAll(updates: seq<Update<E>>)
      requires Valid()
      modifies this
      ensures Valid() && localEventsBuffer == PutAll(old(localEventsBuffer), updates)
    {
      for i := 0 to |updates|
        invariant Valid() && localEventsBuffer == PutAll(old(localEventsBuffer), updates[..i])
      {
        var _ := Process(updates[i]);
        assert updates[..i + 1][..i] == updates[..i];
      }
      assert updates[..|updates|] == updates;
    }

    /** The batch, where the updates of arrivals[i] are handled in the watch loop after the i-th event is taken. */
    method GetNewEvents(arrivals: seq<seq<Update<E>>>) returns (batch: seq<E>)
      requires Valid()
      modifies this
      ensures Valid() && batch == Drained(old(localEventsBuffer), arrivals) && localEventsBuffer == []
    {
      hide Drained, PutAll;
      batch := [];
      var i := 0;
      assert arrivals[0..] == arrivals;
      assert batch + Drained(localEventsBuffer, arrivals) == Drained(localEventsBuffer, arrivals);
      while localEventsBuffer != []
        invariant Valid() && i <= |arrivals|
        invariant batch + Drained(localEventsBuffer, arrivals[i..]) == Drained(old(localEventsBuffer), arrivals)
        decreases |arrivals| - i, |localEventsBuffer|
      {
        ghost var left := arrivals[i..];
        DrainedNext(localEventsBuffer, left);
        ghost var rest :=
          if left == [] then Drained(localEventsBuffer[1..], [])
          else Drained(PutAll(localEventsBuffer[1..], left[0]), left[1..]);
        JoinedOn(batch, [localEventsBuffer[0]], rest);
        batch := batch + [localEventsBuffer[0]];
        localEventsBuffer := localEventsBuffer[1..];
        if i < |arrivals| {
          assert left[0] == arrivals[i] && left[1..] == arrivals[i + 1..];
          ProcessAll(arrivals[i]);
          i := i + 1;
        }
      }
      DrainedNone(arrivals[i..]);
    }
  }
}
