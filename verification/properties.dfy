/**
  Properties of the lifecycle operations against the in-memory reference
  store: the stateless capability answers as the evolving service would, the
  local state written back mirrors the service, rename means replace, and a
  repeated update is idempotent. Plus, for any store, that the local-only
  attributes never steer which calls are issued.
 */
module Properties {
  import opened Wrappers
  import opened Rules
  import opened RuleStore
  import opened Diagnostics
  import opened Reconciler
  import opened FakeStore

  /** Every call Create issues is answered by `Fake(m)` as the service would answer it in turn. */
  lemma CreateAnswersMatchReplay(m: Remote, plan: Record, now: Timestamp)
    ensures var r := Create(Fake(m), plan, now);
            Replay(m, r.calls) == Answers(Fake(m), r.calls)
  {
    var r := Create(Fake(m), plan, now);
    if plan.autoImport {
      assert Step(m, r.calls[0]) == m;
      assert r.calls[1..] == [r.calls[1]];
    }
  }

  /** Every call Update issues is answered by `Fake(m)` as the service would answer it in turn. */
  lemma UpdateAnswersMatchReplay(m: Remote, plan: Record, state: Record, now: Timestamp)
    ensures var r := Update(Fake(m), plan, state, now);
            Replay(m, r.calls) == Answers(Fake(m), r.calls)
  {
    var r := Update(Fake(m), plan, state, now);
    if plan.metric != state.metric && |r.calls| == 2 {
      var m1 := Step(m, r.calls[0]);
      assert m1 == m - {state.metric};
      assert r.calls[1..] == [r.calls[1]];
      assert Fails(Fake(m1), r.calls[1]) == Fails(Fake(m), r.calls[1]);
    }
  }

  /**
    Create against the service in state `m`: a plain create conflicts exactly
    when the metric already exists; with auto-import it never fails, and it
    warns exactly when it adopted an existing rule. A written state mirrors
    the service, a failure leaves the service untouched, no other metric is
    affected, and a well-keyed service stays well keyed.
   */
  lemma CreateAgainstService(m: Remote, plan: Record, now: Timestamp)
    ensures var r := Create(Fake(m), plan, now);
            var m' := Apply(m, r.calls);
            && (!plan.autoImport ==> (HasError(r.diags) <==> plan.metric in m))
            && (plan.autoImport ==> !HasError(r.diags))
            && (Warnings(r.diags) == 1 <==> plan.autoImport && plan.metric in m)
            && (r.effect.SetState? ==> Mirrors(m', r.effect.record))
            && (HasError(r.diags) ==> m' == m)
            && m' - {plan.metric} == m - {plan.metric}
            && (WellKeyed(m) ==> WellKeyed(m'))
  {
    var r := Create(Fake(m), plan, now);
    if WellKeyed(m) {
      ApplyPreservesWellKeyed(m, r.calls);
    }
    var last := Last(r.calls);
    ApplyOne(m, last);
    if plan.autoImport {
      assert Step(m, r.calls[0]) == m;
      ApplyAppend(m, [r.calls[0]], [last]);
      assert r.calls == [r.calls[0]] + [last];
      ApplyOne(m, r.calls[0]);
    }
  }

  /**
    Update against the service in state `m`. A written state mirrors the
    service; after a replace the prior metric is gone; an in-place update
    fails exactly when the metric is absent.
   */
  lemma UpdateAgainstService(m: Remote, plan: Record, state: Record, now: Timestamp)
    ensures var r := Update(Fake(m), plan, state, now);
            var m' := Apply(m, r.calls);
            && (r.effect.SetState? ==> Mirrors(m', r.effect.record))
            && (plan.metric != state.metric && r.effect.SetState? ==> state.metric !in m')
            && (plan.metric == state.metric ==> (HasError(r.diags) <==> plan.metric !in m))
  {
    var r := Update(Fake(m), plan, state, now);
    var req := ToApiReq(plan);
    if plan.metric == state.metric {
      ApplyOne(m, UpdateCall(req));
    } else {
      var prior := ToApiReq(state);
      ApplyOne(m, DeleteCall(prior));
      if !Fails(Fake(m), DeleteCall(prior)) {
        var m1 := m - {state.metric};
        assert Step(m, DeleteCall(prior)) == m1;
        ApplyAppend(m, [DeleteCall(prior)], [CreateCall(req)]);
        assert r.calls == [DeleteCall(prior)] + [CreateCall(req)];
        ApplyOne(m1, CreateCall(req));
      }
    }
  }

  /** A well-keyed service stays well keyed, so the Read lemmas below apply to the state Update leaves. */
  lemma UpdateKeepsWellKeyed(m: Remote, plan: Record, state: Record, now: Timestamp)
    requires WellKeyed(m)
    ensures WellKeyed(Apply(m, Update(Fake(m), plan, state, now).calls))
  {
    ApplyPreservesWellKeyed(m, Update(Fake(m), plan, state, now).calls);
  }

  /** Update changes the service only under the plan's and the prior state's metrics. */
  lemma UpdateTouchesOnlyItsMetrics(m: Remote, plan: Record, state: Record, now: Timestamp, k: string)
    requires k != plan.metric && k != state.metric
    ensures var m' := Apply(m, Update(Fake(m), plan, state, now).calls);
            (k in m' <==> k in m) && (k in m ==> m'[k] == m[k])
  {
    var r := Update(Fake(m), plan, state, now);
    ApplyLeavesOtherKeys(m, r.calls, k);
  }

  /**
    The partial failure of a replace: when both the prior and the planned
    metric exist, the delete succeeds and the create conflicts. The error is
    reported, the local state is left naming the prior rule, yet the prior
    rule is gone from the service.
   */
  lemma ReplacePartialFailure(m: Remote, plan: Record, state: Record, now: Timestamp)
    requires plan.metric != state.metric
    requires state.metric in m && plan.metric in m
    ensures var r := Update(Fake(m), plan, state, now);
            var m' := Apply(m, r.calls);
            && HasError(r.diags) && r.diags[0].summary == ReplaceFailed
            && r.effect == Unchanged
            && state.metric !in m'
            && plan.metric in m' && m'[plan.metric] == m[plan.metric]
  {
    var r := Update(Fake(m), plan, state, now);
    ApplyAppend(m, [r.calls[0]], [r.calls[1]]);
    assert r.calls == [r.calls[0]] + [r.calls[1]];
  }

  /**
    Updating twice with the same plan: the second run is an in-place update
    that succeeds and leaves the service exactly as the first run left it.
   */
  lemma UpdateIdempotent(m: Remote, plan: Record, state: Record, now: Timestamp, later: Timestamp)
    requires !HasError(Update(Fake(m), plan, state, now).diags)
    ensures var r1 := Update(Fake(m), plan, state, now);
            var m1 := Apply(m, r1.calls);
            var r2 := Update(Fake(m1), plan, r1.effect.record, later);
            && r2.calls == [UpdateCall(ToApiReq(plan))]
            && !HasError(r2.diags)
            && Apply(m1, r2.calls) == m1
  {
    var r1 := Update(Fake(m), plan, state, now);
    UpdateAgainstService(m, plan, state, now);
    var m1 := Apply(m, r1.calls);
    assert Mirrors(m1, r1.effect.record);
  }

  /**
    Read against the service: the record is removed exactly when the metric
    is absent; otherwise the new state mirrors the service and keeps the prior
    `autoImport`. Read never changes the service.
   */
  lemma ReadAgainstService(m: Remote, state: Record)
    requires WellKeyed(m)
    ensures var r := Read(Fake(m), state);
            && Apply(m, r.calls) == m
            && (r.effect == RemoveState <==> state.metric !in m)
            && (r.effect.SetState? ==>
                  Mirrors(m, r.effect.record) && r.effect.record.autoImport == state.autoImport)
  {
  }

  /**
    A successful Create followed by a Read gives back the created record,
    with only the bookkeeping stamp cleared: the local state survives a
    refresh, `autoImport` included.
   */
  lemma CreateThenRead(m: Remote, plan: Record, now: Timestamp)
    requires !HasError(Create(Fake(m), plan, now).diags)
    ensures var r := Create(Fake(m), plan, now);
            var m' := Apply(m, r.calls);
            Read(Fake(m'), r.effect.record).effect == SetState(plan.(lastUpdated := None))
  {
    var r := Create(Fake(m), plan, now);
    CreateAgainstService(m, plan, now);
    var m' := Apply(m, r.calls);
    var rec := r.effect.record;
    assert Mirrors(m', rec);
    var back := Read(Fake(m'), rec).effect.record;
    ProjectionKeepsRuleFields(back, plan);
  }

  /**
    An import followed by the framework's Read: the read asks for the
    imported identifier, and a found rule is adopted with `autoImport` off.
   */
  lemma ImportThenRead(m: Remote, id: string)
    requires WellKeyed(m)
    ensures var seed := ImportState(id).effect.record;
            var r := Read(Fake(m), seed);
            && r.calls == [ReadCall(id)]
            && (id in m <==> r.effect.SetState?)
            && (id in m ==> ToApiReq(r.effect.record) == m[id] && r.effect.record.metric == id
                            && !r.effect.record.autoImport)
  {
  }

  /** Delete against the service: an error exactly when the rule is absent; the rule is gone afterwards. */
  lemma DeleteAgainstService(m: Remote, state: Record)
    ensures var r := Delete(Fake(m), state);
            && (HasError(r.diags) <==> state.metric !in m)
            && Apply(m, r.calls) == m - {state.metric}
  {
  }

  /**
    For any store, the local-only attributes never steer Update: two plans and
    two prior states that agree on the rule attributes issue the same calls
    and raise the same diagnostics.
   */
  lemma UpdateIgnoresLocalFields(store: Store, plan: Record, plan': Record,
                                 state: Record, state': Record, now: Timestamp)
    requires SameRuleFields(plan, plan') && SameRuleFields(state, state')
    ensures Update(store, plan, state, now).calls == Update(store, plan', state', now).calls
    ensures Update(store, plan, state, now).diags == Update(store, plan', state', now).diags
  {
    ProjectionKeepsRuleFields(plan, plan');
    ProjectionKeepsRuleFields(state, state');
  }

  /** For any store, a stale `lastUpdated` in the plan has no bearing on Create at all. */
  lemma CreateIgnoresStaleStamp(store: Store, plan: Record, stale: Option<Timestamp>, now: Timestamp)
    ensures Create(store, plan.(lastUpdated := stale), now) == Create(store, plan, now)
  {
    ProjectionKeepsRuleFields(plan, plan.(lastUpdated := stale));
  }

  /** For any store, Read depends on the prior state only through its metric and `autoImport`. */
  lemma ReadIgnoresPriorRuleFields(store: Store, state: Record, state': Record)
    requires state.metric == state'.metric && state.autoImport == state'.autoImport
    ensures Read(store, state) == Read(store, state')
  {
  }
}
