/**
 * The fetch-validate-or-wrap pattern shared by every service function, and the join that
 * `Promise.all` performs over several page requests
 * (src/app/data-access/services/character.ts, src/app/data-access/services/location.ts).
 */
module Fetching {
  import opened Wrappers
  import opened Pagination

  /** A value thrown below a service: an `Error` object with its message, or any other value. */
  datatype Thrown = Error(message: string) | NonError

  /** The text a service puts after its prefix: `error instanceof Error ? error.message : "Unknown error"`. */
  function Describe(t: Thrown): (s: string)
    ensures t.Error? ==> s == t.message
    ensures t.NonError? ==> s == "Unknown error"
  {
    match t
    case Error(m) => m
    case NonError => "Unknown error"
  }

  /** The variables of a list query: an optional page number and an optional filter. */
  datatype Variables<F> = Variables(page: Option<int>, filter: Option<F>)

  /** The `data` the GraphQL client returns: a document the response schema accepts, or one it rejects. */
  datatype Payload<B> = Accepted(body: B) | Rejected(issue: string)

  /** One page of a list response as it arrives, with the pagination block not yet normalised. */
  datatype RawPage<T> = RawPage(info: RawInfo, results: seq<T>)

  /** One page of a list response after schema validation. */
  datatype Page<T> = Page(info: Info, results: seq<T>)

  /**
   * The GraphQL client for one query document: what the query resolves to, or what it throws.
   * The network and the client's cache are not part of this model.
   */
  type Query<!V, B> = V -> Result<Payload<B>, Thrown>

  /**
   * The body of every service function: run the query, validate `data` against the schema
   * (a rejected document throws a validation error whose message is the issue), and turn
   * anything thrown into a new `Error` whose message is `prefix` followed by the description
   * of what was thrown.
   */
  function Guarded<B>(prefix: string, outcome: Result<Payload<B>, Thrown>): (r: Result<B, string>)
    ensures r.Ok? <==> outcome.Ok? && outcome.value.Accepted?
    ensures r.Ok? ==> r.value == outcome.value.body
    ensures outcome.Err? ==> r == Err(prefix + Describe(outcome.error))
    ensures outcome.Ok? && outcome.value.Rejected? ==> r == Err(prefix + outcome.value.issue)
    ensures r.Err? ==> prefix <= r.error
  {
    match outcome
    case Err(thrown) => Err(prefix + Describe(thrown))
    case Ok(Rejected(issue)) => Err(prefix + Describe(Error(issue)))
    case Ok(Accepted(body)) => Ok(body)
  }

  /** Schema validation of a list page: the results are kept and the pagination block is normalised. */
  function Validated<T>(raw: RawPage<T>): (page: Page<T>)
    ensures page.results == raw.results
    ensures page.info == NormalizeInfo(raw.info)
    ensures raw.info.pages == None ==> page.info.pages == 0
  {
    Page(NormalizeInfo(raw.info), raw.results)
  }

  /** A list service function (`getCharacters`, `getLocations`): a guarded query whose page is validated. */
  function FetchPage<F, T>(prefix: string, query: Query<Variables<F>, RawPage<T>>, vars: Variables<F>): (r: Result<Page<T>, string>)
    ensures r.Ok? <==> query(vars).Ok? && query(vars).value.Accepted?
    ensures r.Ok? ==> r.value == Validated(query(vars).value.body)
    ensures r.Err? ==> prefix <= r.error
  {
    match Guarded(prefix, query(vars))
    case Ok(raw) => Ok(Validated(raw))
    case Err(e) => Err(e)
  }

  /**
   * `Promise.all` over already-issued requests: succeeds with every value in input order when
   * every request succeeds, otherwise fails with the error of one of the failed requests
   * (which one depends on completion order; this model takes the first in input order).
   */
  function JoinAll<T>(rs: seq<Result<T, string>>): (r: Result<seq<T>, string>)
    ensures r.Ok? <==> forall k :: 0 <= k < |rs| ==> rs[k].Ok?
    ensures r.Ok? ==> |r.value| == |rs| && forall k :: 0 <= k < |rs| ==> rs[k] == Ok(r.value[k])
    ensures r.Err? ==> FirstFailure(rs) < |rs| && r.error == rs[FirstFailure(rs)].error
  {
    if rs == [] then Ok([])
    else
      match rs[0]
      case Err(e) => Err(e)
      case Ok(v) =>
        match JoinAll(rs[1..])
        case Err(e) => Err(e)
        case Ok(vs) => Ok([v] + vs)
  }

  /** The position of the first failed request, or `|rs|` when none failed. */
  function FirstFailure<T>(rs: seq<Result<T, string>>): (k: nat)
    ensures k <= |rs|
    ensures forall i :: 0 <= i < k ==> rs[i].Ok?
    ensures k < |rs| ==> rs[k].Err?
  {
    if rs == [] || rs[0].Err? then 0 else 1 + FirstFailure(rs[1..])
  }
}
