/**
  The lifecycle operations of the aggregation rule resource. Each takes the
  store capability and the decoded plan and/or prior state (decoding is
  taken to succeed) and returns the calls it issued, the diagnostics it
  raised and what it asks the framework to do with the local state.
 */
module Reconciler {
  import opened Wrappers
  import opened Rules
  import opened RuleStore
  import opened Diagnostics

  /** What an operation asks of the locally persisted state. */
  datatype Effect = Unchanged | SetState(record: Record) | RemoveState

  datatype Response = Response(calls: seq<Call>, diags: seq<Diagnostic>, effect: Effect)

  /**
    The common tail of Create and Update: the last mutation's outcome decides
    between an error with the state left alone and the stamped plan written.
   */
  function Conclude(calls: seq<Call>, outcome: Outcome<string>, failure: string,
                    onSuccess: seq<Diagnostic>, plan: Record, now: Timestamp): (r: Response)
    requires CountOf(onSuccess, Error) == 0
    ensures r.calls == calls
    ensures HasError(r.diags) <==> outcome.Fail?
    ensures outcome.Fail? ==> r.diags == [Diagnostic(Error, failure, outcome.error)]
    ensures HasError(r.diags) ==> r.effect == Unchanged && |r.diags| == 1
    ensures !HasError(r.diags) ==> r.effect == SetState(Stamp(plan, now)) && r.diags == onSuccess
  {
    match outcome
    case Fail(msg) => Response(calls, [Diagnostic(Error, failure, msg)], Unchanged)
    case Pass => Response(calls, onSuccess, SetState(Stamp(plan, now)))
  }

  /**
    Create. Without auto-import the plan is created outright. With it, the
    metric is probed first: a failed probe (not found, or any other error)
    leads to a create, a successful one to an in-place update of the existing
    rule and, once that succeeds, one warning that the rule was adopted.
   */
  function Create(store: Store, plan: Record, now: Timestamp): (r: Response)
    ensures !plan.autoImport ==> r.calls == [CreateCall(ToApiReq(plan))]
    ensures plan.autoImport ==> |r.calls| == 2 && r.calls[0] == ReadCall(plan.metric)
    ensures plan.autoImport && Fails(store, ReadCall(plan.metric)) ==>
              r.calls[1] == CreateCall(ToApiReq(plan)) && Warnings(r.diags) == 0
    ensures plan.autoImport && !Fails(store, ReadCall(plan.metric)) ==>
              r.calls[1] == UpdateCall(ToApiReq(plan)) && Count(r.calls, Creating) == 0
    ensures Warnings(r.diags) == 1 <==>
              plan.autoImport && !Fails(store, ReadCall(plan.metric)) && !HasError(r.diags)
    ensures Warnings(r.diags) <= 1
    ensures r.calls != [] && (HasError(r.diags) <==> Fails(store, Last(r.calls)))
    ensures HasError(r.diags) ==> r.diags[0].detail == ErrorOf(store, Last(r.calls))
    ensures HasError(r.diags) ==> r.effect == Unchanged && |r.diags| == 1
    ensures HasError(r.diags) ==>
              r.diags[0].summary
                == (if plan.autoImport && !Fails(store, ReadCall(plan.metric)) then UpdateFailed else CreateFailed)
    ensures Warnings(r.diags) == 1 ==> r.diags == [Diagnostic(Warning, AdoptedSummary, AdoptedDetail)]
    ensures !HasError(r.diags) ==> r.effect == SetState(Stamp(plan, now))
  {
    var req := ToApiReq(plan);
    if !plan.autoImport then
      Conclude([CreateCall(req)], store.create(req), CreateFailed, [], plan, now)
    else if store.read(plan.metric).Failure? then
      Conclude([ReadCall(plan.metric), CreateCall(req)], store.create(req), CreateFailed, [], plan, now)
    else
      Conclude([ReadCall(plan.metric), UpdateCall(req)], store.update(req), UpdateFailed,
               [Diagnostic(Warning, AdoptedSummary, AdoptedDetail)], plan, now)
  }

  /**
    Read. A failed read means the rule is gone: a warning, never an error, and
    the local record is removed. Otherwise the fetched rule becomes the state,
    with `autoImport` carried over from the prior state.
   */
  function Read(store: Store, state: Record): (r: Response)
    ensures r.calls == [ReadCall(state.metric)]
    ensures !HasError(r.diags)
    ensures Fails(store, ReadCall(state.metric)) ==>
              r.effect == RemoveState
              && r.diags == [Diagnostic(Warning, ReadFailed, store.read(state.metric).error)]
    ensures !Fails(store, ReadCall(state.metric)) ==>
              r.diags == [] && r.effect.SetState?
              && ToApiReq(r.effect.record) == store.read(state.metric).value
              && r.effect.record.autoImport == state.autoImport
  {
    match store.read(state.metric)
    case Failure(msg) =>
      Response([ReadCall(state.metric)], [Diagnostic(Warning, ReadFailed, msg)], RemoveState)
    case Success(rule) =>
      Response([ReadCall(state.metric)], [], SetState(OverlayLocal(rule, state)))
  }

  /**
    Update. The metric is the identity: when the plan keeps it, the rule is
    updated in place; when the plan changes it, the rule is replaced by a
    delete of the prior rule followed by a create of the plan, and a failed
    delete stops before the create.
   */
  function Update(store: Store, plan: Record, state: Record, now: Timestamp): (r: Response)
    ensures plan.metric == state.metric ==> r.calls == [UpdateCall(ToApiReq(plan))]
    ensures plan.metric != state.metric ==>
              r.calls != [] && r.calls[0] == DeleteCall(ToApiReq(state)) && Count(r.calls, Updating) == 0
    ensures plan.metric != state.metric && Fails(store, DeleteCall(ToApiReq(state))) ==>
              |r.calls| == 1
    ensures plan.metric != state.metric && !Fails(store, DeleteCall(ToApiReq(state))) ==>
              r.calls == [DeleteCall(ToApiReq(state)), CreateCall(ToApiReq(plan))]
    ensures HasError(r.diags) ==>
              r.diags[0].summary == (if plan.metric != state.metric then ReplaceFailed else UpdateFailed)
    ensures Warnings(r.diags) == 0
    ensures r.calls != [] && (HasError(r.diags) <==> Fails(store, Last(r.calls)))
    ensures HasError(r.diags) ==> r.diags[0].detail == ErrorOf(store, Last(r.calls))
    ensures HasError(r.diags) ==> r.effect == Unchanged && |r.diags| == 1
    ensures !HasError(r.diags) ==> r.effect == SetState(Stamp(plan, now))
  {
    var req := ToApiReq(plan);
    if plan.metric != state.metric then
      var prior := ToApiReq(state);
      match store.delete(prior)
      case Fail(msg) =>
        Response([DeleteCall(prior)], [Diagnostic(Error, ReplaceFailed, msg)], Unchanged)
      case Pass =>
        Conclude([DeleteCall(prior), CreateCall(req)], store.create(req), ReplaceFailed, [], plan, now)
    else
      Conclude([UpdateCall(req)], store.update(req), UpdateFailed, [], plan, now)
  }

  /**
    Delete. One delete of the prior rule; an error exactly when the store
    refuses. The operation itself never touches the local state: dropping the
    record after a successful delete is the framework's job.
   */
  function Delete(store: Store, state: Record): (r: Response)
    ensures r.calls == [DeleteCall(ToApiReq(state))]
    ensures HasError(r.diags) <==> Fails(store, DeleteCall(ToApiReq(state)))
    ensures HasError(r.diags) ==>
              r.diags == [Diagnostic(Error, DeleteFailed, store.delete(ToApiReq(state)).error)]
    ensures !HasError(r.diags) ==> r.diags == []
    ensures r.effect == Unchanged
  {
    var prior := ToApiReq(state);
    match store.delete(prior)
    case Fail(msg) => Response([DeleteCall(prior)], [Diagnostic(Error, DeleteFailed, msg)], Unchanged)
    case Pass => Response([DeleteCall(prior)], [], Unchanged)
  }

  /** Import. The identifier becomes the metric verbatim; no store call is made. */
  function ImportState(id: string): (r: Response)
    ensures r.calls == [] && r.diags == []
    ensures r.effect.SetState? && r.effect.record.metric == id
  {
    Response([], [], SetState(ImportSeed(id)))
  }
}
