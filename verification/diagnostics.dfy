/**
  Diagnostics raised by the lifecycle operations: errors abort the operation,
  warnings accompany a completed one. Summaries are the provider's own.
 */
module Diagnostics {
  import opened Wrappers

  datatype Severity = Warning | Error

  /** A diagnostic; `detail` carries the store's error message where there is one. */
  datatype Diagnostic = Diagnostic(severity: Severity, summary: string, detail: string)

  const CreateFailed := "Unable to create aggregation rule"
  const UpdateFailed := "Unable to update aggregation rule"
  const ReplaceFailed := "Unable to replace aggregation rule"
  const DeleteFailed := "Unable to delete aggregation rule"
  const ReadFailed := "Unable to read aggregation rule"
  const AdoptedSummary := "Existing aggregation rule for metric found"
  const AdoptedDetail := "The existing rule has been updated and imported into Terraform state; no aggregation rule has been created."

  /** The number of diagnostics of the given severity. */
  function CountOf(ds: seq<Diagnostic>, s: Severity): nat
  {
    CountWhere(ds, (d: Diagnostic) => d.severity == s)
  }

  predicate HasError(ds: seq<Diagnostic>)
  {
    CountOf(ds, Error) > 0
  }

  function Warnings(ds: seq<Diagnostic>): nat
  {
    CountOf(ds, Warning)
  }
}
