/** metrics/sinks/stackdriver/stackdriver.go: throttling, batching into requests, and the workers that send them. */
module Stackdriver {
  import opened Core
  import opened Sequences

  // ----- Throttling -----

  /** The timestamps of the batches exported, of those offered; the first is measured against the zero time. */
  function Exported(offered: seq<int>, zero: int, minInterval: int): (r: seq<int>) {
    if offered == [] then []
    else
      var before := Exported(offered[..|offered| - 1], zero, minInterval);
      var last := if before == [] then zero else before[|before| - 1];
      var t := offered[|offered| - 1];
      if t < last + minInterval then before else before + [t]
  }

  /** Batches exported k apart are at least k intervals apart in time. */
  lemma {:induction false} ExportsSpaced(offered: seq<int>, zero: int, minInterval: int, i: nat, j: nat)
    requires i < j < |Exported(offered, zero, minInterval)|
    ensures var e := Exported(offered, zero, minInterval);
            e[j] - e[i] >= (j - i) * minInterval
    decreases |offered|, j
  {
    var before := Exported(offered[..|offered| - 1], zero, minInterval);
    if j < |before| {
      ExportsSpaced(offered[..|offered| - 1], zero, minInterval, i, j);
    } else if i < j - 1 {
      ExportsSpaced(offered, zero, minInterval, i, j - 1);
      assert (j - i) * minInterval == (j - 1 - i) * minInterval + minInterval;
    } else {
      assert (j - i) * minInterval == minInterval;
    }
  }

  /** The last of the ascending positions f that is before j. */
  function LastBefore(f: seq<nat>, j: nat): Option<nat> {
    if f == [] then None
    else if f[|f| - 1] < j then Some(f[|f| - 1])
    else LastBefore(f[..|f| - 1], j)
  }

  /** Position j is due: an interval has passed since the last one exported before it, or else since the zero time. */
  predicate Due(f: seq<nat>, offered: seq<int>, zero: int, minInterval: int, j: nat)
    requires j < |offered|
  {
    var i := LastBefore(f, j);
    offered[j] >= (if i.Some? && i.value < |offered| then offered[i.value] else zero) + minInterval
  }

  /** Exactly those due are exported, in order. */
  lemma {:induction false} ExportedExactlyWhenDue(offered: seq<int>, zero: int, minInterval: int) returns (f: seq<nat>)
    ensures Embeds(f, Exported(offered, zero, minInterval), offered)
    ensures forall j: nat :: j < |offered| ==> (j in f <==> Due(f, offered, zero, minInterval, j))
  {
    f := [];
    if offered != [] {
      var n := |offered| - 1;
      f := ExportedExactlyWhenDue(offered[..n], zero, minInterval);
      f := OneMoreOffered(f, offered, zero, minInterval);
    }
  }

  lemma LastOfMore(f: seq<nat>, n: nat, j: nat)
    requires j <= n
    ensures LastBefore(f + [n], j) == LastBefore(f, j)
  {
    assert (f + [n])[..|f|] == f;
  }

  lemma {:induction false} LastIsBefore(f: seq<nat>, j: nat)
    ensures var i := LastBefore(f, j); i.Some? ==> i.value < j
  {
    if f != [] {
      LastIsBefore(f[..|f| - 1], j);
    }
  }

  lemma OneMoreOffered(f: seq<nat>, offered: seq<int>, zero: int, minInterval: int) returns (g: seq<nat>)
    requires offered != []
    requires Embeds(f, Exported(offered[..|offered| - 1], zero, minInterval), offered[..|offered| - 1])
    requires forall j: nat :: j < |offered| - 1 ==> (j in f <==> Due(f, offered[..|offered| - 1], zero, minInterval, j))
    ensures Embeds(g, Exported(offered, zero, minInterval), offered)
    ensures forall j: nat :: j < |offered| ==> (j in g <==> Due(g, offered, zero, minInterval, j))
  {
    hide Due, Embeds;
    var n := |offered| - 1;
    var before, t := Exported(offered[..n], zero, minInterval), offered[n];
    var last := if before == [] then zero else before[|before| - 1];
    EmbedsNext(f, before, offered);
    g := if t < last + minInterval then f else f + [n];
    forall j: nat | j <= n
      ensures j in g <==> Due(g, offered, zero, minInterval, j)
    {
      if j < n {
        StillDue(f, offered, zero, minInterval, j);
      } else {
        LastIsDue(f, before, offered, zero, minInterval);
      }
    }
  }

  lemma EmbedsNext(f: seq<nat>, before: seq<int>, offered: seq<int>)
    requires offered != [] && Embeds(f, before, offered[..|offered| - 1])
    ensures var n := |offered| - 1;
            && Embeds(f, before, offered) && Embeds(f + [n], before + [offered[n]], offered) && n !in f
  {}

  /** Whether an earlier position is due does not depend on the last one. */
  lemma StillDue(f: seq<nat>, offered: seq<int>, zero: int, minInterval: int, j: nat)
    requires j < |offered| - 1
    ensures var n := |offered| - 1;
            && (Due(f, offered, zero, minInterval, j) <==> Due(f, offered[..n], zero, minInterval, j))
            && (Due(f + [n], offered, zero, minInterval, j) <==> Due(f, offered[..n], zero, minInterval, j))
  {
    LastOfMore(f, |offered| - 1, j);
    LastIsBefore(f, j);
  }

  lemma LastIsDue(f: seq<nat>, before: seq<int>, offered: seq<int>, zero: int, minInterval: int)
    requires offered != [] && Embeds(f, before, offered[..|offered| - 1])
    ensures var n := |offered| - 1;
            var last := if before == [] then zero else before[|before| - 1];
            && (Due(f, offered, zero, minInterval, n) <==> offered[n] >= last + minInterval)
            && (Due(f + [n], offered, zero, minInterval, n) <==> offered[n] >= last + minInterval)
  {
    LastOfMore(f, |offered| - 1, |offered| - 1);
  }

  // ----- What is produced -----

  /** The series a labelled item is translated to under each resource model, if any. */
  datatype Labeled<S> = Labeled(legacy: Option<S>, modern: Option<S>)

  /** A metric set as far as the sink looks at it: its translations are given. */
  datatype SetSeries<S> = SetSeries(kind: string, hasStart: bool, values: seq<S>, labeled: seq<Labeled<S>>)

  const MAX_PER_REQUEST := 200
  const TYPE_SYSTEM_CONTAINER := "sys_container"

  predicate Exportable<S>(x: SetSeries<S>) {
    && (x.kind == TYPE_NODE || x.kind == TYPE_POD || x.kind == TYPE_POD_CONTAINER || x.kind == TYPE_SYSTEM_CONTAINER)
    && x.hasStart
  }

  function Opt<S>(o: Option<S>): seq<S> {
    if o.None? then [] else [o.value]
  }

  function LabeledSeries<S>(items: seq<Labeled<S>>, useOld: bool, useNew: bool): seq<S> {
    if items == [] then []
    else
      var x := items[|items| - 1];
      LabeledSeries(items[..|items| - 1], useOld, useNew) +
      (if useOld then Opt(x.legacy) else []) + (if useNew then Opt(x.modern) else [])
  }

  /** All the series of a batch, in the order they come up. */
  function Produced<S>(sets: seq<SetSeries<S>>, useOld: bool, useNew: bool): seq<S> {
    if sets == [] then []
    else
      var x := sets[|sets| - 1];
      Produced(sets[..|sets| - 1], useOld, useNew) +
      if Exportable(x) then x.values + LabeledSeries(x.labeled, useOld, useNew) else []
  }

  /** What is sent of a labelled item: its legacy series, its new one, both or none. */
  function ItemPart<S>(x: Labeled<S>, useOld: bool, useNew: bool): seq<S> {
    match (x.legacy, x.modern)
    case (Some(a), Some(b)) => if useOld && useNew then [a, b] else if useOld then [a] else if useNew then [b] else []
    case (Some(a), None) => if useOld then [a] else []
    case (None, Some(b)) => if useNew then [b] else []
    case (None, None) => []
  }

  function ItemParts<S>(items: seq<Labeled<S>>, useOld: bool, useNew: bool): seq<seq<S>> {
    seq(|items|, i requires 0 <= i < |items| => ItemPart(items[i], useOld, useNew))
  }

  /** What is sent of a set: nothing, or its values and then its labelled items one by one. */
  function SetPart<S>(x: SetSeries<S>, useOld: bool, useNew: bool): seq<S> {
    if x.kind in {"node", "pod", "pod_container", "sys_container"} && x.hasStart then
      x.values + Concat(ItemParts(x.labeled, useOld, useNew))
    else []
  }

  lemma {:induction false} LabeledParts<S>(items: seq<Labeled<S>>, useOld: bool, useNew: bool)
    ensures LabeledSeries(items, useOld, useNew) == Concat(ItemParts(items, useOld, useNew))
  {
    if items != [] {
      var n := |items| - 1;
      LabeledParts(items[..n], useOld, useNew);
      assert ItemParts(items, useOld, useNew)[..n] == ItemParts(items[..n], useOld, useNew);
    }
  }

  lemma SetPartIs<S>(x: SetSeries<S>, useOld: bool, useNew: bool)
    ensures SetPart(x, useOld, useNew) ==
            if Exportable(x) then x.values + LabeledSeries(x.labeled, useOld, useNew) else []
  {
    hide ItemParts, LabeledSeries, Concat;
    LabeledParts(x.labeled, useOld, useNew);
  }

  /** The series sent: those of the sets of four types that have a start time, set by set. */
  lemma {:induction false} ProducedParts<S>(sets: seq<SetSeries<S>>, useOld: bool, useNew: bool)
    ensures Produced(sets, useOld, useNew) ==
            Concat(seq(|sets|, i requires 0 <= i < |sets| => SetPart(sets[i], useOld, useNew)))
  {
    hide SetPart, LabeledSeries, Exportable;
    if sets != [] {
      var n := |sets| - 1;
      ProducedParts(sets[..n], useOld, useNew);
      SetPartIs(sets[n], useOld, useNew);
      var parts := seq(|sets|, i requires 0 <= i < |sets| => SetPart(sets[i], useOld, useNew));
      assert parts[..n] == seq(n, i requires 0 <= i < n => SetPart(sets[..n][i], useOld, useNew));
    }
  }

  /** Requests of 200 but for the last, which is not empty. */
  ghost predicate Batched<S>(requests: seq<seq<S>>) {
    && (forall i :: 0 <= i < |requests| - 1 ==> |requests[i]| == 200)
    && (requests != [] ==> 0 < |requests[|requests| - 1]| <= 200)
  }

  /** Batching leaves no choice: the requests follow from the series. */
  lemma {:induction false} BatchedUniquely<S>(a: seq<seq<S>>, b: seq<seq<S>>)
    requires Batched(a) && Batched(b) && Concat(a) == Concat(b)
    ensures a == b
    decreases |a|
  {
    LengthOf(a);
    LengthOf(b);
    if a != [] {
      var m, n := |a| - 1, |b| - 1;
      assert |a| == |b|;
      assert a == a[..m] + [a[m]] && b == b[..n] + [b[n]];
      var s := Concat(a);
      LengthOf(a[..m]);
      LengthOf(b[..n]);
      assert Concat(a[..m]) == s[..|Concat(a[..m])|] && Concat(b[..n]) == s[..|Concat(b[..n])|];
      assert a[m] == s[|Concat(a[..m])|..] && b[n] == s[|Concat(b[..n])|..];
      BatchedUniquely(a[..m], b[..n]);
    }
  }

  lemma {:induction false} LengthOf<S>(a: seq<seq<S>>)
    requires Batched(a)
    ensures a == [] ==> Concat(a) == []
    ensures a != [] ==> |Concat(a)| == MAX_PER_REQUEST * (|a| - 1) + |a[|a| - 1]|
  {
    if |a| > 1 {
      LengthOf(a[..|a| - 1]);
    }
  }

  /** The requests being filled: full ones and an unfinished one, holding what was produced so far. */
  ghost predicate Filling<S>(requests: seq<seq<S>>, req: seq<S>, produced: seq<S>) {
    && (forall i :: 0 <= i < |requests| ==> |requests[i]| == MAX_PER_REQUEST)
    && |req| < MAX_PER_REQUEST
    && Concat(requests) + req == produced
  }

  class StackdriverSink<S> {
    const minInterval: int
    const useOldResourceModel: bool
    const useNewResourceModel: bool
    var lastExportTime: int

    constructor (minInterval: int, useOld: bool, useNew: bool, zero: int)
      ensures lastExportTime == zero && this.minInterval == minInterval
      ensures useOldResourceModel == useOld && useNewResourceModel == useNew
    {
      this.minInterval, useOldResourceModel, useNewResourceModel, lastExportTime := minInterval, useOld, useNew, zero;
    }

    /** A series, if there is one, goes into the request; a full request is put away. */
    static method Put(requests: seq<seq<S>>, req: seq<S>, o: Option<S>, ghost produced: seq<S>)
          returns (rs: seq<seq<S>>, r: seq<S>)
      requires Filling(requests, req, produced)
      ensures Filling(rs, r, produced + Opt(o))
    {
      rs, r := requests, req;
      if o.Some? {
        r := r + [o.value];
        assert Concat(requests) + r == produced + Opt(o);
      }
      if |r| >= MAX_PER_REQUEST {
        ConcatOne(rs, r);
        rs, r := rs + [r], [];
      }
    }

    static method PutAll(requests: seq<seq<S>>, req: seq<S>, values: seq<S>, ghost produced: seq<S>)
          returns (rs: seq<seq<S>>, r: seq<S>)
      requires Filling(requests, req, produced)
      ensures Filling(rs, r, produced + values)
    {
      hide Filling;
      rs, r := requests, req;
      assert produced + values[..0] == produced;
      for i := 0 to |values|
        invariant Filling(rs, r, produced + values[..i])
      {
        rs, r := Put(rs, r, Some(values[i]), produced + values[..i]);
        assert produced + values[..i] + [values[i]] == produced + values[..i + 1];
      }
      assert values[..|values|] == values;
    }

    method PutLabeled(requests: seq<seq<S>>, req: seq<S>, items: seq<Labeled<S>>, ghost produced: seq<S>)
          returns (rs: seq<seq<S>>, r: seq<S>)
      requires Filling(requests, req, produced)
      ensures Filling(rs, r, produced + LabeledSeries(items, useOldResourceModel, useNewResourceModel))
    {
      hide Filling, Opt;
      rs, r := requests, req;
      ghost var so: seq<S> := [];
      assert produced + so == produced;
      for i := 0 to |items|
        invariant so == LabeledSeries(items[..i], useOldResourceModel, useNewResourceModel)
        invariant Filling(rs, r, produced + so)
      {
        assert items[..i + 1][..i] == items[..i];
        if useOldResourceModel {
          rs, r := Put(rs, r, items[i].legacy, produced + so);
          assert produced + so + Opt(items[i].legacy) == produced + (so + Opt(items[i].legacy));
          so := so + Opt(items[i].legacy);
        }
        if useNewResourceModel {
          rs, r := Put(rs, r, items[i].modern, produced + so);
          assert produced + so + Opt(items[i].modern) == produced + (so + Opt(items[i].modern));
          so := so + Opt(items[i].modern);
        }
      }
      assert items[..|items|] == items;
    }

    method Batch(sets: seq<SetSeries<S>>) returns (requests: seq<seq<S>>)
      ensures Batched(requests) && Concat(requests) == Produced(sets, useOldResourceModel, useNewResourceModel)
    {
      hide Exportable, LabeledSeries, Filling;
      requests := [];
      var req: seq<S> := [];
      NothingFilled<S>();
      ghost var so: seq<S> := [];
      for i := 0 to |sets|
        invariant so == Produced(sets[..i], useOldResourceModel, useNewResourceModel)
        invariant Filling(requests, req, so)
      {
        assert sets[..i + 1][..i] == sets[..i];
        if Exportable(sets[i]) {
          requests, req := PutAll(requests, req, sets[i].values, so);
          requests, req := PutLabeled(requests, req, sets[i].labeled, so + sets[i].values);
          ghost var more := LabeledSeries(sets[i].labeled, useOldResourceModel, useNewResourceModel);
          assert so + sets[i].values + more == so + (sets[i].values + more);
          so := so + (sets[i].values + more);
        }
      }
      assert sets[..|sets|] == sets;
      Filled(requests, req, so);
      if |req| > 0 {
        requests := requests + [req];
      }
    }

    /** None when the batch is skipped; else the requests handed to the senders. */
    method ExportData(timestamp: int, sets: seq<SetSeries<S>>) returns (r: Option<seq<seq<S>>>)
      modifies this
      ensures r.None? <==> timestamp < old(lastExportTime) + minInterval
      ensures lastExportTime == if r.None? then old(lastExportTime) else timestamp
      ensures r.Some? ==>
              Batched(r.value) && Concat(r.value) == Produced(sets, useOldResourceModel, useNewResourceModel)
    {
      if timestamp < lastExportTime + minInterval {
        r := None;
      } else {
        lastExportTime := timestamp;
        var requests := Batch(sets);
        r := Some(requests);
      }
    }
  }

  lemma NothingFilled<S>()
    ensures Filling<S>([], [], [])
  {}

  lemma Filled<S>(requests: seq<seq<S>>, req: seq<S>, produced: seq<S>)
    requires Filling(requests, req, produced)
    ensures req == [] ==> Batched(requests) && Concat(requests) == produced
    ensures req != [] ==> Batched(requests + [req]) && Concat(requests + [req]) == produced
  {
    ConcatOne(requests, req);
    assert Concat(requests) + [] == Concat(requests);
  }

  // ----- Sending -----

  const REQUEST_LATENCY_SEC := 3

  /** The number of workers; a timeout below the request latency makes Go divide by zero. */
  function Workers(requests: nat, timeoutSec: nat): Option<nat> {
    if timeoutSec / REQUEST_LATENCY_SEC == 0 then None else Some(5 + requests / (timeoutSec / REQUEST_LATENCY_SEC))
  }

  /**
   * The workers can handle all the requests within the timeout at three seconds a request, and there are five more
   * than that many requests fill.
   */
  lemma WorkersSuffice(requests: nat, timeoutSec: nat)
    ensures Workers(requests, timeoutSec).None? <==> timeoutSec < 3
    ensures Workers(requests, timeoutSec).Some? ==>
              var w, each := Workers(requests, timeoutSec).value, timeoutSec / 3;
              w * each > requests && (w - 5) * each <= requests < (w - 4) * each
  {
    if timeoutSec >= 3 {
      var each := timeoutSec / 3;
      var q := requests / each;
      assert q * each + requests % each == requests;
      assert (5 + q) * each == 5 * each + q * each && (1 + q) * each == each + q * each;
    }
  }
}
