/**
  An in-memory reference store: the remote service as a map from metric to
  rule. A create fails when the metric is already present, an update or a
  delete fails when it is absent, and a read fails when it is absent.

  `Fake(m)` is the stateless capability answering every call as the service
  in state `m` would; `Replay` and `Apply` run a trace against the map one
  call at a time, applying each mutation the service accepts.
 */
module FakeStore {
  import opened Wrappers
  import opened Rules
  import opened RuleStore

  type Remote = map<string, Rule>

  /** Every stored rule sits under its own metric. */
  predicate WellKeyed(m: Remote)
  {
    forall k :: k in m ==> m[k].metric == k
  }

  /** The local record agrees with what the service stores under its metric. */
  predicate Mirrors(m: Remote, rec: Record)
  {
    rec.metric in m && m[rec.metric] == ToApiReq(rec)
  }

  function Fake(m: Remote): Store
  {
    Store(
      (metric: string) => if metric in m then Success(m[metric]) else Failure("rule not found"),
      (rule: Rule) => if rule.metric in m then Fail("rule already exists") else Pass,
      (rule: Rule) => if rule.metric in m then Pass else Fail("rule not found"),
      (rule: Rule) => if rule.metric in m then Pass else Fail("rule not found"))
  }

  /** The metric a call concerns. */
  function Key(c: Call): string
  {
    match c
    case ReadCall(metric) => metric
    case CreateCall(rule) => rule.metric
    case UpdateCall(rule) => rule.metric
    case DeleteCall(rule) => rule.metric
  }

  /** The service state after one call; a refused call changes nothing. */
  function Step(m: Remote, c: Call): (m': Remote)
    ensures Fails(Fake(m), c) ==> m' == m
    ensures forall k :: k != Key(c) ==> (k in m' <==> k in m) && (k in m ==> m'[k] == m[k])
  {
    if Fails(Fake(m), c) then m
    else
      match c
      case ReadCall(_) => m
      case CreateCall(rule) => m[rule.metric := rule]
      case UpdateCall(rule) => m[rule.metric := rule]
      case DeleteCall(rule) => m - {rule.metric}
  }

  /** The service state after a whole trace, run in order. */
  function Apply(m: Remote, calls: seq<Call>): Remote
    decreases |calls|
  {
    if calls == [] then m else Apply(Step(m, calls[0]), calls[1..])
  }

  /** Whether each call fails, when the trace is run in order against the evolving map. */
  function Replay(m: Remote, calls: seq<Call>): (answers: seq<bool>)
    ensures |answers| == |calls|
    decreases |calls|
  {
    if calls == [] then []
    else [Fails(Fake(m), calls[0])] + Replay(Step(m, calls[0]), calls[1..])
  }

  /** Whether each call fails, when every call is put to one fixed capability. */
  function Answers(store: Store, calls: seq<Call>): (answers: seq<bool>)
    ensures |answers| == |calls|
  {
    seq(|calls|, i requires 0 <= i < |calls| => Fails(store, calls[i]))
  }

  /** A one-call trace is one step. */
  lemma ApplyOne(m: Remote, c: Call)
    ensures Apply(m, [c]) == Step(m, c)
  {
    assert [c][1..] == [];
  }

  /** Running two traces one after the other is running their concatenation. */
  lemma {:induction false} ApplyAppend(m: Remote, a: seq<Call>, b: seq<Call>)
    ensures Apply(m, a + b) == Apply(Apply(m, a), b)
    decreases |a|
  {
    if a == [] {
      assert a + b == b;
    } else {
      assert (a + b)[0] == a[0];
      assert (a + b)[1..] == a[1..] + b;
      ApplyAppend(Step(m, a[0]), a[1..], b);
    }
  }

  /** Any trace keeps the map well keyed: a rule is only ever stored under its own metric. */
  lemma {:induction false} ApplyPreservesWellKeyed(m: Remote, calls: seq<Call>)
    requires WellKeyed(m)
    ensures WellKeyed(Apply(m, calls))
    decreases |calls|
  {
    if calls != [] {
      var m' := Step(m, calls[0]);
      assert WellKeyed(m');
      ApplyPreservesWellKeyed(m', calls[1..]);
    }
  }

  /** A metric no call of the trace concerns is stored exactly as before. */
  lemma {:induction false} ApplyLeavesOtherKeys(m: Remote, calls: seq<Call>, k: string)
    requires forall i :: 0 <= i < |calls| ==> Key(calls[i]) != k
    ensures k in Apply(m, calls) <==> k in m
    ensures k in m ==> Apply(m, calls)[k] == m[k]
    decreases |calls|
  {
    if calls != [] {
      ApplyLeavesOtherKeys(Step(m, calls[0]), calls[1..], k);
    }
  }
}
