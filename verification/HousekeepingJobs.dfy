/** metrics/manager/manager.go:110-150: permits, jobs and windows given up, from the events of a run. */
module HousekeepingJobs {
  import opened Sequences
  import opened Housekeeping

  /** The windows a permit was taken for, in order. */
  ghost function Acquired(c: Config, clock: int, events: seq<Event>): seq<Window>
    requires c.Valid() && Possible(c, Init(c, clock), events)
  {
    if events == [] then []
    else
      var n := |events| - 1;
      var s := After(c, Init(c, clock), events[..n]);
      var before := Acquired(c, clock, events[..n]);
      if events[n].Acquire? && s.phase.Asking? then before + [s.phase.w] else before
  }

  /** The windows whose jobs gave their permit back. */
  ghost function GivenBack(events: seq<Event>): multiset<Window> {
    if events == [] then multiset{}
    else
      var e := events[|events| - 1];
      var before := GivenBack(events[..|events| - 1]);
      if e.GiveBack? then before + multiset{e.w} else before
  }

  function AboutToStart(s: State): seq<Window> {
    if s.phase.Starting? then [s.phase.w] else []
  }

  /** The windows in acquired have been or are about to be started, and those of backs are done. */
  ghost predicate Accounted(s: State, acquired: seq<Window>, backs: multiset<Window>) {
    s.began + AboutToStart(s) == acquired && s.running + backs == multiset(s.began)
  }

  lemma StillStarted(c: Config, s: State, e: Event, acquired: seq<Window>)
    requires c.Valid() && Enabled(c, s, e) && s.began + AboutToStart(s) == acquired
    ensures var t := Apply(c, s, e);
            t.began + AboutToStart(t) == if e.Acquire? then acquired + [s.phase.w] else acquired
  {
    hide Config.WindowAt;
  }

  lemma StillRunning(c: Config, s: State, e: Event, backs: multiset<Window>)
    requires c.Valid() && Enabled(c, s, e) && s.running + backs == multiset(s.began)
    ensures var t := Apply(c, s, e);
            t.running + (if e.GiveBack? then backs + multiset{e.w} else backs) == multiset(t.began)
  {
    hide Config.WindowAt;
    match e
    case Spawn => OneMoreRuns(s.running, backs, s.began, s.phase.w);
    case GiveBack(w) => OneLessRuns(s.running, backs, w);
    case _ => assert Apply(c, s, e).running == s.running && Apply(c, s, e).began == s.began;
  }

  lemma OneMoreRuns(running: multiset<Window>, backs: multiset<Window>, began: seq<Window>, w: Window)
    requires running + backs == multiset(began)
    ensures running + multiset{w} + backs == multiset(began + [w])
  {
    assert multiset(began + [w]) == multiset(began) + multiset{w};
  }

  lemma OneLessRuns(running: multiset<Window>, backs: multiset<Window>, w: Window)
    requires w in running
    ensures running - multiset{w} + (backs + multiset{w}) == running + backs
  {}

  /**
   * In every run a job is started for every window a permit was taken for, in order, and runs until it gives the permit
   * back.
   */
  lemma {:induction false} JobsFollowPermits(c: Config, clock: int, events: seq<Event>)
    requires c.Valid() && Possible(c, Init(c, clock), events)
    ensures Accounted(After(c, Init(c, clock), events), Acquired(c, clock, events), GivenBack(events))
  {
    hide Config.WindowAt, Apply;
    if events == [] {
      NothingAcquired(c, clock);
    } else {
      var n := |events| - 1;
      JobsFollowPermits(c, clock, events[..n]);
      var s := After(c, Init(c, clock), events[..n]);
      StillStarted(c, s, events[n], Acquired(c, clock, events[..n]));
      StillRunning(c, s, events[n], GivenBack(events[..n]));
    }
  }

  lemma NothingAcquired(c: Config, clock: int)
    ensures Accounted(Init(c, clock), [], multiset{})
  {}

  /** The loop has been asking since it woke at event i. */
  ghost predicate AskingSince(c: Config, clock: int, events: seq<Event>, i: nat)
    requires c.Valid() && Possible(c, Init(c, clock), events)
  {
    var s := After(c, Init(c, clock), events);
    && i < |events| && events[i].Wake? && s.phase.Asking? && Possible(c, Init(c, clock), events[..i])
    && s.phase.since == After(c, Init(c, clock), events[..i]).clock
    && After(c, Init(c, clock), events[..i]).phase == Asleep(s.phase.w)
  }

  lemma {:induction false} AskingBegan(c: Config, clock: int, events: seq<Event>) returns (i: nat)
    requires c.Valid() && Possible(c, Init(c, clock), events) && After(c, Init(c, clock), events).phase.Asking?
    ensures AskingSince(c, clock, events, i)
  {
    hide Config.WindowAt;
    var n := |events| - 1;
    var s := After(c, Init(c, clock), events[..n]);
    if s.phase.Asking? {
      i := AskingBegan(c, clock, events[..n]);
      assert events[..n][..i] == events[..i];
    } else {
      i := n;
    }
  }

  /** A window is given up exactly from half a resolution after the loop woke for it. */
  lemma GivenUpAfterHalfAResolution(c: Config, clock: int, events: seq<Event>) returns (i: nat)
    requires c.Valid() && Possible(c, Init(c, clock), events) && After(c, Init(c, clock), events).phase.Asking?
    ensures AskingSince(c, clock, events, i)
    ensures var s := After(c, Init(c, clock), events);
            Enabled(c, s, GiveUp) <==> s.clock - After(c, Init(c, clock), events[..i]).clock >= c.resolution / 2
  {
    hide Possible, After;
    i := AskingBegan(c, clock, events);
  }
}
