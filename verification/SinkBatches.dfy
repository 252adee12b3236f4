/** metrics/sinks/manager.go: what the sinks get are the batches the calls were made with. */
module SinkBatches {
  import opened Core
  import opened Sequences
  import opened SinkManager

  /** The batches ExportData was called with on a run, in order. */
  function Offered<B>(events: seq<Event<B>>): seq<B> {
    if events == [] then []
    else
      var e := events[|events| - 1];
      Offered(events[..|events| - 1]) + if e.Begin? then [e.data] else []
  }

  /** Every call carries the batch it was made with. */
  ghost predicate Carries<B>(calls: seq<Call<B>>, offered: seq<B>) {
    |calls| == |offered| && forall c :: 0 <= c < |calls| ==> calls[c].data == offered[c]
  }

  lemma CarriesStill<B>(s: State<B>, e: Event<B>, offered: seq<B>)
    requires Enabled(s, e) && Carries(s.calls, offered)
    ensures Carries(Apply(s, e).calls, if e.Begin? then offered + [e.data] else offered)
  {}

  lemma {:induction false} CallsCarryTheirBatch<B>(n: nat, events: seq<Event<B>>)
    requires Possible(Init(n), events)
    ensures Carries(After(Init(n), events).calls, Offered(events))
  {
    hide Apply, Enabled;
    if events != [] {
      var m := |events| - 1;
      CallsCarryTheirBatch(n, events[..m]);
      CarriesStill(After(Init(n), events[..m]), events[m], Offered(events[..m]));
    }
  }

  /** What sink i exports, in the order it begins the exports. */
  ghost predicate ExportsOf<B>(s: State<B>, i: nat, batches: seq<B>) {
    && i < |s.sinks| && |batches| == |s.sinks[i].begun|
    && forall k :: 0 <= k < |batches| ==>
         s.sinks[i].begun[k] < |s.calls| && batches[k] == s.calls[s.sinks[i].begun[k]].data
  }

  /**
   * On every run a sink exports batches of calls that were made, no call's batch twice: there are positions among the
   * batches offered, all different, at which its exports are found.
   */
  lemma EveryExportWasOffered<B>(n: nat, events: seq<Event<B>>, i: nat) returns (batches: seq<B>, positions: seq<nat>)
    requires Possible(Init(n), events) && i < n
    ensures ExportsOf(After(Init(n), events), i, batches)
    ensures |positions| == |batches| && NoRepeats(positions)
    ensures forall k :: 0 <= k < |batches| ==>
              positions[k] < |Offered(events)| && batches[k] == Offered(events)[positions[k]]
  {
    hide Possible, After, CallsInv;
    CallsCarryTheirBatch(n, events);
    InvHolds(n, events);
    var s := After(Init(n), events);
    assert SinkInv(s, i);
    positions := s.sinks[i].begun;
    assert forall k :: 0 <= k < |positions| ==> positions[k] in positions && Took(s, positions[k], i);
    batches := seq(|positions|, k requires 0 <= k < |positions| => s.calls[positions[k]].data);
  }

  /** With one caller at a time a sink exports an in-order selection of the batches offered. */
  lemma BatchesAreSubsequence<B>(n: nat, events: seq<Event<B>>, i: nat) returns (batches: seq<B>)
    requires Possible(Init(n), events) && Sequential(Init(n), events) && i < n
    ensures ExportsOf(After(Init(n), events), i, batches) && Subsequence(batches, Offered(events))
  {
    hide Possible, After, Sequential, Took;
    CallsCarryTheirBatch(n, events);
    ExportsAreSubsequence(n, events, i);
    var positions;
    batches, positions := EveryExportWasOffered(n, events, i);
    var begun := After(Init(n), events).sinks[i].begun;
    assert Embeds(begun, batches, Offered(events));
  }

  /**
   * And it exports every batch it accepted: the batch of a call whose push the sink took is among its exports.
   */
  lemma AcceptedIsExported<B>(n: nat, events: seq<Event<B>>, i: nat, c: nat)
    requires Possible(Init(n), events) && i < n && Took(After(Init(n), events), c, i)
    ensures |After(Init(n), events).sinks| == n && c < |Offered(events)|
    ensures c in After(Init(n), events).sinks[i].begun
    ensures After(Init(n), events).calls[c].data == Offered(events)[c]
  {
    hide Possible, After, CallsInv;
    CallsCarryTheirBatch(n, events);
    InvHolds(n, events);
    assert SinkInv(After(Init(n), events), i);
    assert c in After(Init(n), events).sinks[i].begun;
  }
}
