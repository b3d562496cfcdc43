/** PromQL metric-name resolution (src/lgtm.rs): dots cannot appear in a PromQL identifier. */
module PromQl {
  import opened Prelude

  datatype MetricMeta = MetricMeta(metric: string, kind: string)
  datatype MetricKind = Gauge | CumulativeCounter | CumulativeHistogram
  datatype Resolution = Resolution(queryName: string, storageName: string, kind: MetricKind)

  /** `replace('.', "_")`. */
  function QueryName(name: string): string {
    seq(|name|, i requires 0 <= i < |name| => if name[i] == '.' then '_' else name[i])
  }

  function Resolve(m: MetricMeta): Resolution {
    Resolution(
      QueryName(m.metric),
      m.metric,
      if m.kind == "sum" then CumulativeCounter
      else if m.kind == "histogram" then CumulativeHistogram
      else Gauge)
  }

  /** `promql_context`. */
  function Context(catalog: seq<MetricMeta>): seq<Resolution> {
    seq(|catalog|, i requires 0 <= i < |catalog| => Resolve(catalog[i]))
  }

  predicate Separator(c: char) {
    c == '.' || c == '_'
  }

  /** Equal once dots and underscores are identified. */
  predicate SameUpToSeparators(a: string, b: string) {
    |a| == |b| && forall i :: 0 <= i < |a| ==> a[i] == b[i] || (Separator(a[i]) && Separator(b[i]))
  }

  /** A name's query name is the one dot-free string that is equal to it up to dots and underscores. */
  lemma QueryNameIff(name: string, q: string)
    ensures q == QueryName(name) <==> '.' !in q && SameUpToSeparators(q, name)
  {
    if '.' !in q && SameUpToSeparators(q, name) {
      forall i | 0 <= i < |q| ensures q[i] == QueryName(name)[i] {
        assert q[i] in q;
      }
    }
  }

  /** The kinds that PromQL tells apart; every other stored kind is read as a gauge. */
  predicate KindAgrees(stored: string, kind: MetricKind) {
    && (stored == "sum" <==> kind == CumulativeCounter)
    && (stored == "histogram" <==> kind == CumulativeHistogram)
  }

  /**
   What resolution must deliver, which leaves it no choice: one entry per stored metric in catalog order,
   with the stored name, a query name that PromQL can write (no dots) and that is the stored one up to
   dots and underscores, and the kind.
   */
  lemma ContextIff(catalog: seq<MetricMeta>, c: seq<Resolution>)
    ensures c == Context(catalog) <==>
            && |c| == |catalog|
            && forall i :: 0 <= i < |c| ==>
                 && c[i].storageName == catalog[i].metric
                 && '.' !in c[i].queryName && SameUpToSeparators(c[i].queryName, catalog[i].metric)
                 && KindAgrees(catalog[i].kind, c[i].kind)
  {
    forall i | 0 <= i < |c| && i < |catalog|
      ensures c[i] == Context(catalog)[i] <==>
              && c[i].storageName == catalog[i].metric
              && '.' !in c[i].queryName && SameUpToSeparators(c[i].queryName, catalog[i].metric)
              && KindAgrees(catalog[i].kind, c[i].kind)
    {
      QueryNameIff(catalog[i].metric, c[i].queryName);
    }
  }

  lemma CollisionIff(a: string, b: string)
    ensures QueryName(a) == QueryName(b) <==> SameUpToSeparators(a, b)
  {
    if QueryName(a) == QueryName(b) {
      forall i | 0 <= i < |a| ensures a[i] == b[i] || (Separator(a[i]) && Separator(b[i])) {
        assert QueryName(a)[i] == QueryName(b)[i];
      }
    }
  }

  /** The storage name of the first entry with a query name. */
  function Lookup(context: seq<Resolution>, queryName: string): Option<string> {
    if context == [] then None
    else if context[0].queryName == queryName then Some(context[0].storageName)
    else Lookup(context[1..], queryName)
  }

  lemma {:induction false} LookupFinds(context: seq<Resolution>, queryName: string, k: nat)
    requires k < |context| && context[k].queryName == queryName
    ensures exists j :: 0 <= j <= k && context[j].queryName == queryName
                        && Lookup(context, queryName) == Some(context[j].storageName)
  {
    if context[0].queryName != queryName {
      LookupFinds(context[1..], queryName, k - 1);
      var j :| 0 <= j <= k - 1 && context[1..][j].queryName == queryName
               && Lookup(context[1..], queryName) == Some(context[1..][j].storageName);
      assert context[j + 1] == context[1..][j];
    } else {
      assert Lookup(context, queryName) == Some(context[0].storageName);
    }
  }

  predicate NoCollisions(catalog: seq<MetricMeta>) {
    forall i, j :: 0 <= i < |catalog| && 0 <= j < |catalog|
                   && SameUpToSeparators(catalog[i].metric, catalog[j].metric)
                   ==> catalog[i].metric == catalog[j].metric
  }

  predicate Recovered(catalog: seq<MetricMeta>, k: nat)
    requires k < |catalog|
  {
    Lookup(Context(catalog), QueryName(catalog[k].metric)) == Some(catalog[k].metric)
  }

  /** Every stored metric is reached through its query name exactly when no two names collide. */
  lemma AllRecoveredIff(catalog: seq<MetricMeta>)
    ensures (forall k :: 0 <= k < |catalog| ==> Recovered(catalog, k)) <==> NoCollisions(catalog)
  {
    if NoCollisions(catalog) {
      forall k | 0 <= k < |catalog| ensures Recovered(catalog, k) {
        var q := QueryName(catalog[k].metric);
        LookupFinds(Context(catalog), q, k);
        var j :| 0 <= j <= k && Context(catalog)[j].queryName == q
                 && Lookup(Context(catalog), q) == Some(Context(catalog)[j].storageName);
        CollisionIff(catalog[j].metric, catalog[k].metric);
      }
    }
    if forall k :: 0 <= k < |catalog| ==> Recovered(catalog, k) {
      forall i, j | 0 <= i < |catalog| && 0 <= j < |catalog|
                    && SameUpToSeparators(catalog[i].metric, catalog[j].metric)
        ensures catalog[i].metric == catalog[j].metric
      {
        CollisionIff(catalog[i].metric, catalog[j].metric);
        assert Recovered(catalog, i) && Recovered(catalog, j);
      }
    }
  }
}
