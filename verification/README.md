# Aggregation rule reconciler — a Dafny model

This project models the lifecycle logic of the Terraform resource for a
Grafana Adaptive Metrics *aggregation rule* (`internal/provider/rule_resource.go`).
A rule is keyed by its `metric`. The provider's local record declares every
rule attribute plus the local-only attribute `auto_import`. On every successful
Create and Update the provider also sets a `last_updated` stamp on the plan it
writes back. The model's record carries both local-only fields.
Each lifecycle operation (Create, Read, Update, Delete, ImportState) decides
three things:

- which calls to make on the remote rule store, and in what order;
- which diagnostics to raise when a call fails;
- what to do with the local state: write a record, remove it, or leave it alone.

Files:

- `wrappers.dfy`: `Option`, `Result` and `Outcome`.
- `rules.dfy` (module `Rules`): the `Rule` the store exchanges, the local `Record`, and the
  conversions between them. `ToApiReq` drops the local-only attributes. `ToRecord` gives
  them neutral values. `Stamp` sets `last_updated`. `OverlayLocal` carries
  `auto_import` over a fetched rule. `ImportSeed` builds the state an import leaves.
- `rule_store.dfy` (module `RuleStore`): the store as an injected capability, a datatype of
  four total functions. Each call yields success or an error message, and a read also
  yields a rule. Also the `Call` trace entries.
- `diagnostics.dfy` (module `Diagnostics`): warnings and errors, with the provider's own
  summary strings.
- `reconciler.dfy` (module `Reconciler`): the five operations as pure functions returning a
  `Response` (call trace, diagnostics, state effect).
- `fake_store.dfy` (module `FakeStore`): an in-memory reference service, a map from metric to
  rule. A create of an existing metric is refused, and so is an update, delete or read of a
  missing one. It has a stateful replay of a trace (`Step`, `Apply`, `Replay`). The service is
  *well keyed* when every rule is stored under its own metric.
- `properties.dfy` (module `Properties`): lemmas relating the operations to the reference
  service, and lemmas showing that local-only attributes never steer the calls.

The store is a stateless oracle: each call's answer depends only on that call.
`CreateAnswersMatchReplay` and `UpdateAnswersMatchReplay` justify this. They show
that, for the reference service, the oracle built from the initial state answers
every issued call exactly as the service would when the trace is replayed call by
call. The clock is an injected opaque `Timestamp`.

## Model

| member | source | states |
|---|---|---|
| Rules.ToApiReq | internal/provider/rule_resource.go:129 | the store request keeps the record's identity (`metric`); the local-only attributes are not part of a `Rule` |
| Rules.ToRecord | internal/provider/rule_resource.go:170 | a fetched rule lifted to a record projects back to the same rule; `auto_import` is false and `last_updated` is unset |
| Rules.Stamp | internal/provider/rule_resource.go:152 | the written-back plan agrees with the plan on every rule attribute and on `auto_import`; `last_updated` is the injected time |
| Rules.OverlayLocal | internal/provider/rule_resource.go:170-174 | after a read, the rule attributes come from the fetched rule and `auto_import` from the prior state, whatever the fetched value was |
| Rules.ImportSeed | internal/provider/rule_resource.go:229-231 | the imported id becomes `metric` verbatim; the other attributes are neutral: empty strings, empty lists, `drop` and `auto_import` false, `last_updated` unset |
| Rules.ProjectionKeepsRuleFields | internal/provider/rule_resource.go:129 | two records give the same store request if and only if they agree on every rule attribute |
| Rules.LiftAfterProject | internal/provider/rule_resource.go:170 | projecting and then lifting loses exactly `auto_import` and `last_updated` |
| Reconciler.Conclude | internal/provider/rule_resource.go:129-133 | the last mutation's failure gives exactly one error, carrying the given summary and the store's message, and no state write; its success writes the stamped plan |
| Reconciler.Create | internal/provider/rule_resource.go:118-154 | without auto-import, exactly one `Create(plan)`. With it, `Read(metric)` first; a failed probe is followed only by `Create(plan)` and no warning; a successful probe by `Update(plan)`, never `Create`. Exactly one warning if and only if the adoption succeeded, and it is the adoption warning. Error if and only if the last call failed, and then the state is left alone; the error's summary is the update failure after a successful probe, the create failure otherwise, and its detail is the store's message for the failed call. On success the state is the stamped plan |
| Reconciler.Read | internal/provider/rule_resource.go:156-177 | exactly one `Read(metric)`; never an error. A failed read gives exactly one warning, the read-failure summary with the store's message, and removal of the record. A successful read gives a record projecting to the fetched rule, with `auto_import` from the prior state |
| Reconciler.Update | internal/provider/rule_resource.go:179-214 | same metric: exactly one `Update(plan)`. Changed metric: `Delete(prior)` first and never `Update`; a failed delete stops there, otherwise exactly `Delete(prior)` then `Create(plan)`; errors carry the replace summary, and an in-place failure carries the update summary; an error's detail is the store's message for the failed call. No warnings. Error if and only if the last call failed, and then no state write; otherwise the stamped plan |
| Reconciler.Delete | internal/provider/rule_resource.go:216-227 | exactly one `Delete(prior)`; an error if and only if that call fails, and it is the delete-failure summary with the store's message; no diagnostic otherwise; the local state is not touched |
| Reconciler.ImportState | internal/provider/rule_resource.go:229-231 | no store call and no diagnostic; the seeded state's `metric` is the id |
| Properties.CreateAnswersMatchReplay | internal/provider/rule_resource.go:125-150 | the stateless store answers each call Create issues as the reference service would, with calls applied in order |
| Properties.UpdateAnswersMatchReplay | internal/provider/rule_resource.go:192-210 | the same for Update, including the create after a replace's delete |
| Properties.CreateAgainstService | internal/provider/rule_resource.go:125-153 | against the reference service: a plain create fails if and only if the metric exists; an auto-import create never fails, and warns if and only if the metric existed. A written state mirrors the service. A failure leaves the service unchanged. No other metric changes. A well-keyed service stays well keyed |
| Properties.UpdateAgainstService | internal/provider/rule_resource.go:192-213 | against the reference service: a written state mirrors the service. After a replace the prior metric is gone. An in-place update fails if and only if the metric is absent |
| Properties.UpdateKeepsWellKeyed | internal/provider/rule_resource.go:192-210 | a well-keyed service stays well keyed after Update |
| Properties.UpdateTouchesOnlyItsMetrics | internal/provider/rule_resource.go:192-210 | Update changes the service only under the plan's metric and the prior state's metric |
| Properties.ReplacePartialFailure | internal/provider/rule_resource.go:193-203 | when the delete succeeds and the create conflicts: a replace error, no state write, and the prior rule is gone from the service while the conflicting one is untouched |
| Properties.UpdateIdempotent | internal/provider/rule_resource.go:204-213 | a second Update with the same plan is one `Update(plan)`; it succeeds and leaves the service exactly as the first left it |
| Properties.ReadAgainstService | internal/provider/rule_resource.go:163-176 | on a well-keyed service: Read never changes the service. The record is removed if and only if the metric is absent. Otherwise the new state mirrors the service and keeps the prior `auto_import` |
| Properties.CreateThenRead | internal/provider/rule_resource.go:152-176 | from any service state, a successful Create followed by Read gives back the plan, with only `last_updated` cleared |
| Properties.ImportThenRead | internal/provider/rule_resource.go:229-231 | on a well-keyed service: the Read after an import asks for the id; a found rule is adopted under that metric with `auto_import` off; a missing one removes the record |
| Properties.DeleteAgainstService | internal/provider/rule_resource.go:223-226 | Delete errs if and only if the rule is absent; afterwards the metric is not in the service |
| Properties.UpdateIgnoresLocalFields | internal/provider/rule_resource.go:192-210 | for any store, plans and prior states that agree on rule attributes issue the same calls and raise the same diagnostics |
| Properties.CreateIgnoresStaleStamp | internal/provider/rule_resource.go:145-153 | for any store, the plan's incoming `last_updated` has no effect on Create |
| Properties.ReadIgnoresPriorRuleFields | internal/provider/rule_resource.go:163-176 | for any store, Read depends on the prior state only through `metric` and `auto_import` |

## Left out

- `Configure`, `Metadata` and `Schema` (lines 31-116): framework wiring and attribute declarations, with no reconciliation behaviour. The schema defaults are not modelled; the plan is taken as already defaulted.
- Decoding and encoding of plan and state (`req.Plan.Get`, `req.State.Get`, `resp.State.Set`): taken to always succeed, so the early returns on decode diagnostics are not modelled.
- The HTTP client behind the store: it is the injected `Store` capability. A call's answer is an error message or a success (plus a rule for a read). Transport details, retries and timeouts are not modelled.
- The bodies of `model.RuleTF.ToAPIReq` and `Rule.ToTF`: the model package is not part of this model. `ToApiReq` drops only the local-only attributes, and `ToRecord` gives them neutral values. Any normalisation these functions do (for example an empty `match_type` meaning exact match) is not modelled.
- Rules.Stamp: the model treats the `last_updated` stamp as persisted with the state. The schema at lines 53-115 declares no such attribute, and whether the state write keeps it depends on `model.RuleTF`, which is not part of this model.
- `time.Now().Format(time.RFC850)`: replaced by an injected opaque `Timestamp`; date formatting is not modelled.
- Reconciler.Delete: the effect is `Unchanged` on success too. The source does not remove the state itself; the framework drops the record after a Delete without errors.
- Reconciler.ImportState: the passthrough sets only `metric`. The model's neutral values for the other attributes stand in for the framework's null values.
- Error wrapping: errors carry the store's message as the detail under a fixed summary. The detail does not include the metric, because the source does not add it.
- Probe failures: the auto-import probe treats every read error, including a transport error, as "not found" and goes on to create. The model keeps this, as the source does.
