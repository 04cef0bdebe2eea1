/**
  The remote aggregation-rules store as an injected capability. Each entry
  point is a total function of its argument: a read yields the stored rule or
  an error, a mutation yields success or an error. The lifecycle operations
  record every call they issue, in order, as a trace of `Call`s.
 */
module RuleStore {
  import opened Wrappers
  import opened Rules

  /** The store capability; an error carries the message the store reported. */
  datatype Store = Store(
    read: string -> Result<Rule, string>,
    create: Rule -> Outcome<string>,
    update: Rule -> Outcome<string>,
    delete: Rule -> Outcome<string>)

  /** One issued store call with its argument. */
  datatype Call =
    | ReadCall(metric: string)
    | CreateCall(rule: Rule)
    | UpdateCall(rule: Rule)
    | DeleteCall(rule: Rule)

  datatype Verb = Reading | Creating | Updating | Deleting

  function VerbOf(c: Call): Verb
  {
    match c
    case ReadCall(_) => Reading
    case CreateCall(_) => Creating
    case UpdateCall(_) => Updating
    case DeleteCall(_) => Deleting
  }

  /** True when the store answers the call with an error. */
  predicate Fails(store: Store, c: Call)
  {
    match c
    case ReadCall(m) => store.read(m).Failure?
    case CreateCall(rule) => store.create(rule).Fail?
    case UpdateCall(rule) => store.update(rule).Fail?
    case DeleteCall(rule) => store.delete(rule).Fail?
  }

  /** The message the store reported for a call it refused. */
  function ErrorOf(store: Store, c: Call): string
    requires Fails(store, c)
  {
    match c
    case ReadCall(m) => store.read(m).error
    case CreateCall(rule) => store.create(rule).error
    case UpdateCall(rule) => store.update(rule).error
    case DeleteCall(rule) => store.delete(rule).error
  }

  /** The number of calls in a trace with the given verb. */
  function Count(calls: seq<Call>, v: Verb): nat
  {
    CountWhere(calls, (c: Call) => VerbOf(c) == v)
  }

  /** The last call of a non-empty trace: the one whose answer decides the outcome. */
  function Last(calls: seq<Call>): Call
    requires calls != []
  {
    calls[|calls| - 1]
  }
}
