/**
 * metrics/manager/manager.go: the housekeeping loop as a transition system. The loop sleeps to the end of
 * the current window, then takes a permit and starts a job for it; jobs give their permits back.
 */
module Housekeeping {
  import opened Sequences

  /** The window worked out when the clock read at. */
  datatype Window = Window(at: int, start: int, end: int)

  datatype Config = Config(resolution: int, scrapeOffset: int, maxParallelism: nat) {
    predicate Valid() {
      resolution > 0
    }

    /** Time.Truncate: down to a multiple of the resolution. */
    function Truncate(t: int): int
      requires Valid()
    {
      t - t % resolution
    }

    function WindowAt(now: int): Window
      requires Valid()
    {
      Window(now, Truncate(now), Truncate(now) + resolution)
    }
  }

  /** Where the loop is: reading the clock, asleep, waiting for a permit since some time, or about to start the job. */
  datatype Phase = Reading | Asleep(w: Window) | Asking(w: Window, since: int) | Starting(w: Window) | Ended

  /** Permits are the contents of the semaphore channel; its capacity is maxParallelism. */
  datatype State = State(clock: int, phase: Phase, permits: nat, running: multiset<Window>, tried: seq<Window>,
      began: seq<Window>)

  datatype Event = Tick(time: nat) | Read | Wake | Acquire | GiveUp | Spawn | GiveBack(w: Window) | Stop

  function Init(c: Config, clock: int): State {
    State(clock, Reading, c.maxParallelism, multiset{}, [], [])
  }

  predicate Enabled(c: Config, s: State, e: Event)
    requires c.Valid()
  {
    match e
    case Tick(_) => true
    case Read => s.phase.Reading?
    case Wake => s.phase.Asleep? && s.clock >= s.phase.w.end + c.scrapeOffset
    case Acquire => s.phase.Asking? && s.permits > 0
    case GiveUp => s.phase.Asking? && s.clock >= s.phase.since + c.resolution / 2
    case Spawn => s.phase.Starting?
    case GiveBack(w) => w in s.running && s.permits < c.maxParallelism
    case Stop => s.phase.Asleep?
  }

  function Apply(c: Config, s: State, e: Event): State
    requires c.Valid() && Enabled(c, s, e)
  {
    match e
    case Tick(d) => s.(clock := s.clock + d)
    case Read => s.(phase := Asleep(c.WindowAt(s.clock)))
    case Wake =>
      if s.phase.w.start < s.phase.w.end then s.(phase := Asking(s.phase.w, s.clock), tried := s.tried + [s.phase.w])
      else s.(phase := Reading)
    case Acquire => s.(phase := Starting(s.phase.w), permits := s.permits - 1)
    case GiveUp => s.(phase := Reading)
    case Spawn => s.(phase := Reading, running := s.running + multiset{s.phase.w}, began := s.began + [s.phase.w])
    case GiveBack(w) => s.(permits := s.permits + 1, running := s.running - multiset{w})
    case Stop => s.(phase := Ended)
  }

  predicate Possible(c: Config, s: State, events: seq<Event>)
    requires c.Valid()
    decreases |events|, 0
  {
    events == [] || (Possible(c, s, events[..|events| - 1]) && Enabled(c, After(c, s, events[..|events| - 1]),
        events[|events| - 1]))
  }

  function After(c: Config, s: State, events: seq<Event>): State
    requires c.Valid() && Possible(c, s, events)
    decreases |events|, 1
  {
    if events == [] then s else Apply(c, After(c, s, events[..|events| - 1]), events[|events| - 1])
  }

  // ----- Windows -----

  /** The next window after one that ended, in terms of how late the clock was read. */
  lemma NextWindow(c: Config, end: int, now: int)
    requires c.Valid() && end % c.resolution == 0
    ensures var w := c.WindowAt(now);
            && w.start % c.resolution == 0 && w.end % c.resolution == 0 && w.start <= now < w.end
            && w.start == end + c.resolution * ((now - end) / c.resolution)
            && (end <= w.start <==> end <= now)
            && (w.start == end <==> 0 <= now - end < c.resolution)
  {
    var r, x := c.resolution, now - end;
    Multiple(r, end);
    Multiple(r, end + r);
    Quotients(r, end, now);
  }

  lemma Multiple(r: int, x: int)
    requires r > 0
    ensures (x - x % r) % r == 0 && (x - x % r + r) % r == 0
  {
    Shift(r, x / r, 0);
    Shift(r, x / r + 1, 0);
    assert x - x % r == r * (x / r) && x - x % r + r == r * (x / r + 1);
  }

  lemma Shift(r: int, q: int, x: int)
    requires r > 0 && 0 <= x < r
    ensures (r * q + x) % r == x && (r * q + x) / r == q
  {
    var y := r * q + x;
    var d := y / r - q;
    assert r * d == x - y % r;
    assert d >= 1 ==> r * d >= r;
    assert d <= -1 ==> r * d <= -r;
  }

  lemma Quotients(r: int, end: int, now: int)
    requires r > 0 && end % r == 0
    ensures now - now % r == end + r * ((now - end) / r)
    ensures (now - now % r) % r == 0 && (now - now % r + r) % r == 0
    ensures end <= now - now % r <==> end <= now
    ensures now - now % r == end <==> 0 <= now - end < r
  {
    var q, x := (now - end) / r, (now - end) % r;
    var p := end / r;
    assert now == r * (p + q) + x;
    Shift(r, p + q, x);
    Multiple(r, now);
    if q >= 1 {
      assert r * q >= r;
    } else if q <= -1 {
      assert r * q <= -r;
    }
  }

  ghost predicate Ordered(ws: seq<Window>) {
    forall i, j :: 0 <= i < j < |ws| ==> ws[i].end <= ws[j].start
  }

  /** Each window is the one its reading falls in, and the reading comes after the previous window's sync time. */
  ghost predicate WellRead(c: Config, ws: seq<Window>)
    requires c.Valid()
  {
    && (forall i :: 0 <= i < |ws| ==> ws[i] == c.WindowAt(ws[i].at))
    && (forall i :: 0 < i < |ws| ==> ws[i - 1].end + c.scrapeOffset <= ws[i].at)
  }

  /** The clock has passed the sync time of every window tried, and the window being slept through follows on. */
  ghost predicate WindowsInv(c: Config, s: State)
    requires c.Valid()
  {
    && WellRead(c, s.tried)
    && (s.tried != [] ==> s.tried[|s.tried| - 1].end + c.scrapeOffset <= s.clock)
    && (s.phase.Asleep? ==> WellRead(c, s.tried + [s.phase.w]))
    && (s.phase.Asking? || s.phase.Starting? ==> s.tried != [] && s.phase.w == s.tried[|s.tried| - 1])
  }

  lemma WindowsKept(c: Config, s: State, e: Event)
    requires c.Valid() && WindowsInv(c, s) && Enabled(c, s, e)
    ensures WindowsInv(c, Apply(c, s, e))
  {
    match e
    case Read => WindowIsReadAt(c, s.clock);
    case Wake => WindowIsReadAt(c, s.clock);
    case _ =>
  }

  lemma WindowIsReadAt(c: Config, t: int)
    requires c.Valid()
    ensures c.WindowAt(t).at == t
  {}

  /** With a non-negative offset, well-read windows follow each other without overlap. */
  lemma {:induction false} WellReadOrdered(c: Config, ws: seq<Window>)
    requires c.Valid() && WellRead(c, ws) && c.scrapeOffset >= 0
    ensures Ordered(ws)
  {
    hide Config.WindowAt;
    if |ws| > 1 {
      var n := |ws| - 1;
      WellReadOrdered(c, ws[..n]);
      Follows(c, ws[n - 1], ws[n]);
      Upwards(c, ws[n - 1]);
      assert forall i :: 0 <= i < n ==> ws[i] == ws[..n][i];
      assert forall i :: 0 <= i < n - 1 ==> ws[i].end <= ws[n - 1].start;
    }
  }

  lemma Upwards(c: Config, w: Window)
    requires c.Valid() && w == c.WindowAt(w.at)
    ensures w.start < w.end
  {}

  lemma Follows(c: Config, v: Window, w: Window)
    requires c.Valid() && v == c.WindowAt(v.at) && w == c.WindowAt(w.at) && v.end <= w.at
    ensures v.end <= w.start
  {
    Multiple(c.resolution, v.at);
    NextWindow(c, v.end, w.at);
  }

  // ----- Jobs -----

  /** Every permit is free, held by the loop or held by a running job. */
  ghost predicate PermitsInv(c: Config, s: State) {
    && s.permits + |s.running| + (if s.phase.Starting? then 1 else 0) == c.maxParallelism
    && s.running <= multiset(s.began)
  }

  lemma PermitsKept(c: Config, s: State, e: Event)
    requires c.Valid() && PermitsInv(c, s) && Enabled(c, s, e)
    ensures PermitsInv(c, Apply(c, s, e))
  {
    hide Config.WindowAt;
  }

  /** Jobs run for windows tried, in order. */
  ghost predicate JobsInv(s: State) {
    && Subsequence(s.began, s.tried)
    && (s.phase.Asking? || s.phase.Starting? ==>
          && s.tried != [] && s.phase.w == s.tried[|s.tried| - 1]
          && Subsequence(s.began, s.tried[..|s.tried| - 1]))
  }

  lemma JobsKept(c: Config, s: State, e: Event)
    requires c.Valid() && JobsInv(s) && Enabled(c, s, e)
    ensures JobsInv(Apply(c, s, e))
  {
    hide Subsequence, Config.WindowAt;
    match e
    case Wake => NextTried(s.began, s.tried, s.phase.w);
    case Spawn => NextBegan(s.began, s.tried);
    case _ =>
  }

  lemma NextTried(began: seq<Window>, tried: seq<Window>, w: Window)
    requires Subsequence(began, tried)
    ensures Subsequence(began, tried + [w]) && Subsequence(began, (tried + [w])[..|tried + [w]| - 1])
  {
    hide Subsequence;
    SubsequenceGrows(began, tried, w);
    assert (tried + [w])[..|tried|] == tried;
  }

  lemma NextBegan(began: seq<Window>, tried: seq<Window>)
    requires tried != [] && Subsequence(began, tried[..|tried| - 1])
    ensures Subsequence(began + [tried[|tried| - 1]], tried)
  {
    hide Subsequence;
    var n := |tried| - 1;
    SubsequenceGrows(began, tried[..n], tried[n]);
    assert tried == tried[..n] + [tried[n]];
  }

  ghost predicate Inv(c: Config, s: State)
    requires c.Valid()
  {
    WindowsInv(c, s) && PermitsInv(c, s) && JobsInv(s)
  }

  lemma {:induction false} InvHolds(c: Config, clock: int, events: seq<Event>)
    requires c.Valid() && Possible(c, Init(c, clock), events)
    ensures Inv(c, After(c, Init(c, clock), events))
  {
    hide WindowsInv, PermitsInv, JobsInv, Apply, Enabled;
    if events == [] {
      InitInv(c, clock);
    } else {
      var n := |events| - 1;
      InvHolds(c, clock, events[..n]);
      var s := After(c, Init(c, clock), events[..n]);
      WindowsKept(c, s, events[n]);
      PermitsKept(c, s, events[n]);
      JobsKept(c, s, events[n]);
    }
  }

  lemma InitInv(c: Config, clock: int)
    requires c.Valid()
    ensures Inv(c, Init(c, clock))
  {
    EmptyWithinEmpty<Window>();
  }

  // ----- Over every run -----

  /**
   * The windows tried in any run are aligned and one resolution long; window k+1 starts after window k by
   * the whole resolutions that offset and delay come to, so it follows on exactly when they stay below one.
   */
  lemma WindowsOverRuns(c: Config, clock: int, events: seq<Event>, k: nat)
    requires c.Valid() && Possible(c, Init(c, clock), events)
    requires k + 1 < |After(c, Init(c, clock), events).tried|
    ensures var ws := After(c, Init(c, clock), events).tried;
            var v, w, r := ws[k], ws[k + 1], c.resolution;
            var late := w.at - v.end;
            && v.start % r == 0 && v.end == v.start + r
            && late >= c.scrapeOffset
            && w.start == v.end + r * (late / r)
            && (w.start == v.end <==> 0 <= late < r)
  {
    hide Possible, After;
    InvHolds(c, clock, events);
    var ws := After(c, Init(c, clock), events).tried;
    Multiple(c.resolution, ws[k].at);
    NextWindow(c, ws[k].end, ws[k + 1].at);
  }

  lemma OrderedSelection(a: seq<Window>, b: seq<Window>)
    requires Subsequence(a, b) && Ordered(b)
    ensures Ordered(a)
  {
    var f: seq<nat> :| Embeds(f, a, b);
  }

  /** With a non-negative offset the windows are strictly increasing and never overlap, and so are those of the jobs. */
  lemma WindowsNeverOverlap(c: Config, clock: int, events: seq<Event>)
    requires c.Valid() && c.scrapeOffset >= 0 && Possible(c, Init(c, clock), events)
    ensures var s := After(c, Init(c, clock), events);
            Ordered(s.tried) && Ordered(s.began) && Subsequence(s.began, s.tried) && s.running <= multiset(s.began)
  {
    hide Possible, After, Config.WindowAt;
    InvHolds(c, clock, events);
    var s := After(c, Init(c, clock), events);
    WellReadOrdered(c, s.tried);
    OrderedSelection(s.began, s.tried);
  }

  lemma Extend(c: Config, clock: int, events: seq<Event>, e: Event) returns (more: seq<Event>)
    requires c.Valid() && Possible(c, Init(c, clock), events) && Enabled(c, After(c, Init(c, clock), events), e)
    ensures Possible(c, Init(c, clock), more)
    ensures After(c, Init(c, clock), more) == Apply(c, After(c, Init(c, clock), events), e)
  {
    hide Enabled, Apply;
    more := events + [e];
    assert more[..|events|] == events;
  }

  /** With a negative offset the loop wakes within the window it slept through, and tries it again. */
  lemma NegativeOffsetRepeats(c: Config) returns (events: seq<Event>)
    requires c.Valid() && c.maxParallelism > 0 && c.scrapeOffset < 0
    ensures Possible(c, Init(c, 0), events) && !Ordered(After(c, Init(c, 0), events).tried)
  {
    hide Possible, After, Config.WindowAt, Ordered;
    var r := c.resolution;
    var t: nat := if r + c.scrapeOffset >= 0 then r + c.scrapeOffset else 0;
    FirstWindow(c, 0);
    FirstWindow(c, t);
    NoEvents(c, 0);
    events := [];
    events := Extend(c, 0, events, Read);
    events := Extend(c, 0, events, Tick(t));
    events := Extend(c, 0, events, Wake);
    events := Extend(c, 0, events, Acquire);
    events := Extend(c, 0, events, Spawn);
    events := Extend(c, 0, events, Read);
    events := Extend(c, 0, events, Wake);
    NotOrdered(After(c, Init(c, 0), events).tried);
  }

  lemma NotOrdered(ws: seq<Window>)
    requires |ws| >= 2 && ws[0].end > ws[1].start
    ensures !Ordered(ws)
  {}

  lemma FirstWindow(c: Config, t: int)
    requires c.Valid() && 0 <= t < c.resolution
    ensures c.WindowAt(t) == Window(t, 0, c.resolution)
  {
    Shift(c.resolution, 0, t);
  }

  lemma NoEvents(c: Config, clock: int)
    requires c.Valid()
    ensures Possible(c, Init(c, clock), []) && After(c, Init(c, clock), []) == Init(c, clock)
  {}

  /** No run overlaps its windows exactly when the offset is not negative. */
  lemma OverlapFreeExactlyWhen(c: Config)
    requires c.Valid() && c.maxParallelism > 0
    ensures (forall clock, events :: Possible(c, Init(c, clock), events) ==>
             Ordered(After(c, Init(c, clock), events).tried))
            <==> c.scrapeOffset >= 0
  {
    hide Possible, After, Config.WindowAt, Ordered;
    if c.scrapeOffset >= 0 {
      forall clock, events | Possible(c, Init(c, clock), events)
        ensures Ordered(After(c, Init(c, clock), events).tried)
      {
        WindowsNeverOverlap(c, clock, events);
      }
    } else {
      var events := NegativeOffsetRepeats(c);
    }
  }

  /**
   * Free permits plus running jobs (and the one about to start) are always maxParallelism, so giving back never blocks.
   */
  lemma PermitsOverRuns(c: Config, clock: int, events: seq<Event>, w: Window)
    requires c.Valid() && Possible(c, Init(c, clock), events)
    ensures var s := After(c, Init(c, clock), events);
            && s.permits + |s.running| + (if s.phase.Starting? then 1 else 0) == c.maxParallelism
            && (w in s.running ==> Enabled(c, s, GiveBack(w)))
  {
    hide Possible, After, JobsInv, WindowsInv, Config.WindowAt;
    InvHolds(c, clock, events);
    var s := After(c, Init(c, clock), events);
    if w in s.running {
      assert multiset{w} <= s.running;
      assert |s.running| == |s.running - multiset{w}| + 1;
    }
  }
}
