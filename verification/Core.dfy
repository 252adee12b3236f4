/** metrics/core/types.go and labels.go: metric values, metric sets and batches. */
module Core {
  import opened Sums

  datatype Option<+T> = None | Some(value: T)

  datatype MetricType = MetricCumulative | MetricGauge | MetricDelta

  /** Go's ValueType is an int8: codes other than the two named ones exist and are rejected late. */
  datatype ValueType = ValueInt64 | ValueFloat | ValueOther(code: int)

  datatype MetricValue = MetricValue(intValue: int64, floatValue: real, metricType: MetricType, valueType: ValueType) {
    predicate Supported() {
      valueType.ValueInt64? || valueType.ValueFloat?
    }

    /** The amount this value reports: the field its type selects. */
    function Reports(): Amount {
      match valueType
      case ValueInt64 => Amount(intValue, 0.0)
      case ValueFloat => Amount(0, floatValue)
      case ValueOther(_) => ZERO
    }

    /** This value reports the amount a, up to the wrap-around of int64. */
    ghost predicate Shows(a: Amount) {
      match valueType
      case ValueInt64 => Same64(intValue, a.i)
      case ValueFloat => floatValue == a.x
      case ValueOther(_) => true
    }

    /** In-place += of the field the type selects; the other fields stay. */
    function Add(b: MetricValue): MetricValue {
      match valueType
      case ValueInt64 => this.(intValue := Wrap64(intValue + b.intValue))
      case ValueFloat => this.(floatValue := floatValue + b.floatValue)
      case ValueOther(_) => this
    }

    /** The amount shown fixes the field it is shown in. */
    lemma ShownExactly(a: Amount)
      requires Shows(a)
      ensures valueType.ValueInt64? ==> intValue == Wrap64(a.i)
      ensures valueType.ValueFloat? ==> floatValue == a.x
    {
      if valueType.ValueInt64? {
        Same64InRange(intValue, a.i);
      }
    }

    /** The field that adding leaves alone; of a type that cannot be added, both. */
    function Unadded(): Amount {
      match valueType
      case ValueInt64 => Amount(0, floatValue)
      case ValueFloat => Amount(intValue, 0.0)
      case ValueOther(_) => Amount(intValue, floatValue)
    }

    /** Alike in everything but the amount reported. */
    predicate Resembles(b: MetricValue) {
      valueType == b.valueType && metricType == b.metricType && Unadded() == b.Unadded()
    }

    lemma AddResembles(b: MetricValue)
      ensures Add(b).Resembles(this)
    {
      hide Wrap64;
    }

    lemma SameIfAlike(b: MetricValue)
      requires Resembles(b) && Reports() == b.Reports()
      ensures this == b
    {}

    lemma ShowsOwnReport()
      ensures Shows(Reports())
    {
      Same64Reflexive(intValue);
    }

    /** A first value shows what it reports, with nothing around it. */
    lemma ShowsWithNothing(a: Amount)
      requires a == ZERO
      ensures Shows(Reports().Plus(a))
    {
      Same64Reflexive(intValue);
    }

    lemma ShowsAfterNothing(a: Amount)
      requires a == ZERO
      ensures Shows(a.Plus(Reports()))
    {
      Same64Reflexive(intValue);
    }

    lemma AddShowsSum(b: MetricValue, a: Amount)
      requires Shows(a) && b.valueType == valueType && Supported()
      ensures Add(b).Shows(b.Reports().Plus(a))
      ensures Add(b).valueType == valueType
    {
      if valueType.ValueInt64? {
        var sum := intValue + b.intValue;
        Same64Reflexive(b.intValue);
        Same64Sum(intValue, b.intValue, a.i, b.intValue);
        WrapIsSame(sum);
        Same64Transitive(Wrap64(sum), sum, a.i + b.intValue);
      }
    }

    /** Adding keeps track of a running sum a on top of a prior amount c. */
    lemma AddShowsMore(b: MetricValue, a: Amount, c: Amount)
      requires Shows(a.Plus(c)) && b.valueType == valueType && Supported()
      ensures Add(b).Shows(b.Reports().Plus(a).Plus(c))
      ensures Add(b).valueType == valueType
    {
      AddShowsSum(b, a.Plus(c));
      assert b.Reports().Plus(a).Plus(c) == b.Reports().Plus(a.Plus(c));
    }
  }

  datatype LabeledMetric = LabeledMetric(name: string, labels: map<string, string>, value: MetricValue)

  function IntValue(n: int64): MetricValue {
    MetricValue(n, 0.0, MetricGauge, ValueInt64)
  }

  /** The contents of a metric set at one moment. */
  datatype SetData = SetData(
    collectionStartTime: int, entityCreateTime: int, scrapeTime: int,
    values: map<string, MetricValue>, labels: map<string, string>, labeled: seq<LabeledMetric>)

  /** The contents of a batch's metric sets at one moment. */
  type View = map<string, SetData>

  /** A batch at one moment. */
  datatype Batch = Batch(timestamp: int, sets: View)

  const TYPE := "type"
  const TYPE_POD_CONTAINER := "pod_container"
  const TYPE_POD := "pod"
  const TYPE_NAMESPACE := "ns"
  const TYPE_NODE := "node"
  const TYPE_CLUSTER := "cluster"
  const POD_ID := "pod_id"
  const POD_NAME := "pod_name"
  const NAMESPACE_NAME := "namespace_name"
  const NAMESPACE_ID := "namespace_id"
  const CONTAINER_NAME := "container_name"
  const LABELS := "labels"
  const NODENAME := "nodename"
  const HOSTNAME := "hostname"
  const RESOURCE_ID := "resource_id"
  const HOST_ID := "host_id"
  const CONTAINER_BASE_IMAGE := "container_base_image"

  /** Reading a missing key of a Go map of strings gives "". */
  function Get(m: map<string, string>, k: string): string {
    if k in m then m[k] else ""
  }

  predicate HasType(d: SetData, t: string) {
    TYPE in d.labels && d.labels[TYPE] == t
  }

  function At(x: map<string, MetricValue>, m: string): Option<MetricValue> {
    if m in x then Some(x[m]) else None
  }

  ghost predicate NoRepeats<T>(s: seq<T>) {
    forall i, j :: 0 <= i < j < |s| ==> s[i] != s[j]
  }

  /** Go ranges over a map in some order: every key once. */
  ghost predicate IsOrder<T>(order: seq<string>, m: map<string, T>) {
    && (forall k :: k in order <==> k in m)
    && NoRepeats(order)
  }

  /** One of the orders. */
  ghost function SomeOrder(keys: set<string>): (order: seq<string>)
    ensures (forall k :: k in order <==> k in keys) && NoRepeats(order)
    decreases |keys|
  {
    if keys == {} then [] else var k :| k in keys; SomeOrder(keys - {k}) + [k]
  }

  /** One of the orders that begin with a given key. */
  ghost function OrderFrom(keys: set<string>, k: string): (order: seq<string>)
    requires k in keys
    ensures (forall j :: j in order <==> j in keys) && NoRepeats(order) && order[0] == k
  {
    [k] + SomeOrder(keys - {k})
  }

  ghost function Seen(order: seq<string>): set<string> {
    set k | k in order
  }

  lemma SeenNext(order: seq<string>)
    requires order != [] && NoRepeats(order)
    ensures Seen(order) == Seen(order[..|order| - 1]) + {order[|order| - 1]}
    ensures order[|order| - 1] !in Seen(order[..|order| - 1])
  {
    var n := |order| - 1;
    assert order == order[..n] + [order[n]];
  }

  class MetricSet {
    var collectionStartTime: int
    var entityCreateTime: int
    var scrapeTime: int
    var values: map<string, MetricValue>
    var labels: map<string, string>
    var labeled: seq<LabeledMetric>

    /** A set literal with labels and empty MetricValues; the times are Go's zero time. */
    constructor (labels: map<string, string>)
      ensures Data() == SetData(0, 0, 0, map[], labels, [])
    {
      this.labels := labels;
      collectionStartTime, entityCreateTime, scrapeTime := 0, 0, 0;
      values, labeled := map[], [];
    }

    ghost function Data(): SetData
      reads this
    {
      SetData(collectionStartTime, entityCreateTime, scrapeTime, values, labels, labeled)
    }
  }

  /** No two keys share a metric set. */
  ghost predicate Distinct(sets: map<string, MetricSet>) {
    forall j, k :: j in sets && k in sets && j != k ==> sets[j] != sets[k]
  }

  ghost function ViewOf(sets: map<string, MetricSet>): View
    reads sets.Values
  {
    map k | k in sets :: sets[k].Data()
  }

  class DataBatch {
    var timestamp: int
    var metricSets: map<string, MetricSet>

    ghost predicate Valid()
      reads this
    {
      Distinct(metricSets)
    }

    ghost function Contents(): View
      reads this, metricSets.Values
    {
      ViewOf(metricSets)
    }
  }
}
