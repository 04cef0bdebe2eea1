/**
  The aggregation rule as the remote service knows it, the local record the
  provider persists, and the conversion between the two.

  The record carries every rule attribute plus two local-only attributes,
  `autoImport` and `lastUpdated`, which are never sent to the service and
  never reported back by it.
 */
module Rules {
  import opened Wrappers

  /** The injected clock reading stamped into `lastUpdated`; opaque to the model. */
  type Timestamp = string

  /** A rule as exchanged with the remote store; `metric` is its identity. */
  datatype Rule = Rule(
    metric: string,
    matchType: string,
    drop: bool,
    keepLabels: seq<string>,
    dropLabels: seq<string>,
    aggregations: seq<string>,
    aggregationInterval: string,
    aggregationDelay: string)

  /** The locally persisted record: the rule attributes plus the local-only overlay. */
  datatype Record = Record(
    metric: string,
    matchType: string,
    drop: bool,
    keepLabels: seq<string>,
    dropLabels: seq<string>,
    aggregations: seq<string>,
    aggregationInterval: string,
    aggregationDelay: string,
    autoImport: bool,
    lastUpdated: Option<Timestamp>)

  /** True when two records agree on every attribute the remote store knows about. */
  predicate SameRuleFields(a: Record, b: Record)
  {
    && a.metric == b.metric
    && a.matchType == b.matchType
    && a.drop == b.drop
    && a.keepLabels == b.keepLabels
    && a.dropLabels == b.dropLabels
    && a.aggregations == b.aggregations
    && a.aggregationInterval == b.aggregationInterval
    && a.aggregationDelay == b.aggregationDelay
  }

  /** The record as a store request: the local-only attributes are dropped. */
  function ToApiReq(rec: Record): (r: Rule)
    ensures r.metric == rec.metric
  {
    Rule(rec.metric, rec.matchType, rec.drop, rec.keepLabels, rec.dropLabels,
         rec.aggregations, rec.aggregationInterval, rec.aggregationDelay)
  }

  /** A fetched rule as a record: the local-only attributes get neutral values. */
  function ToRecord(rule: Rule): (rec: Record)
    ensures ToApiReq(rec) == rule
    ensures !rec.autoImport && rec.lastUpdated == None
  {
    Record(rule.metric, rule.matchType, rule.drop, rule.keepLabels, rule.dropLabels,
           rule.aggregations, rule.aggregationInterval, rule.aggregationDelay, false, None)
  }

  /** The plan as written back after a successful mutation: stamped with the time `now`. */
  function Stamp(plan: Record, now: Timestamp): (rec: Record)
    ensures SameRuleFields(rec, plan)
    ensures rec.autoImport == plan.autoImport
    ensures rec.lastUpdated == Some(now)
  {
    plan.(lastUpdated := Some(now))
  }

  /**
    Field-level merge after a read: every rule attribute comes from the fetched
    rule, `autoImport` comes from the prior local record (the service never
    reports it), and `lastUpdated` keeps the neutral value the lift gives it.
   */
  function OverlayLocal(fetched: Rule, prior: Record): (rec: Record)
    ensures ToApiReq(rec) == fetched
    ensures rec.autoImport == prior.autoImport
    ensures rec.lastUpdated == None
  {
    ToRecord(fetched).(autoImport := prior.autoImport)
  }

  /** The state seeded by an import: only `metric` is known, everything else is neutral. */
  function ImportSeed(id: string): (rec: Record)
    ensures rec.metric == id
    ensures !rec.autoImport && rec.lastUpdated == None
    ensures rec.matchType == "" && !rec.drop
    ensures rec.keepLabels == [] && rec.dropLabels == [] && rec.aggregations == []
    ensures rec.aggregationInterval == "" && rec.aggregationDelay == ""
  {
    Record(id, "", false, [], [], [], "", "", false, None)
  }

  /** Two records make the same store request exactly when they agree on every rule attribute. */
  lemma ProjectionKeepsRuleFields(a: Record, b: Record)
    ensures ToApiReq(a) == ToApiReq(b) <==> SameRuleFields(a, b)
  {
  }

  /** The projection followed by the lift loses exactly the local-only attributes. */
  lemma LiftAfterProject(rec: Record)
    ensures ToRecord(ToApiReq(rec)) == rec.(autoImport := false, lastUpdated := None)
  {
  }
}
