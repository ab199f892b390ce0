/**
 * The request validator of util.js: the request method is checked against an
 * allow-list, then every required query parameter must be present. Failure is
 * a thrown `Error` carrying a message; here it is `Fail(message)`.
 */
module Validate {
  import opened Wrappers

  /** The `terms` argument: `allowedMethods` and `params` default to empty lists. */
  datatype Terms = Terms(allowedMethods: seq<string>, params: seq<string>)

  /** Returning normally, or throwing an `Error` with a message. */
  datatype Outcome = Pass | Fail(message: string)

  /** The query string as `URLSearchParams` holds it: name/value pairs in order. */
  type SearchParams = seq<(string, string)>

  /** `searchParams.has(name)`: only presence counts, whatever the value. */
  predicate Has(query: SearchParams, name: string) {
    exists i :: 0 <= i < |query| && query[i].0 == name
  }

  function MethodNotAllowed(verb: string): string {
    verb + " requests are not allowed at this route"
  }

  function ParamRequired(param: string): string {
    "/?" + param + "= is required to process this request"
  }

  /** The `for (const param of params)` loop from `from` on: the first param not present. */
  function FirstMissing(params: seq<string>, query: SearchParams, from: nat): (r: Option<nat>)
    requires from <= |params|
    ensures r.Some? ==> from <= r.value < |params| && !Has(query, params[r.value])
    ensures r.Some? ==> forall j :: from <= j < r.value ==> Has(query, params[j])
    ensures r.None? <==> forall j :: from <= j < |params| ==> Has(query, params[j])
    decreases |params| - from
  {
    if from == |params| then None
    else if !Has(query, params[from]) then Some(from)
    else FirstMissing(params, query, from + 1)
  }

  /** `validateRequest(request, terms)` for a request with this method and query. */
  function ValidateRequest(verb: string, query: SearchParams, terms: Terms): (r: Outcome)
    // the method check comes first and wins over a missing parameter
    ensures |terms.allowedMethods| > 0 && verb !in terms.allowedMethods ==>
              r == Fail(MethodNotAllowed(verb))
    // it passes exactly when the method is allowed (or no list is given) and every param is present
    ensures r == Pass <==>
              (|terms.allowedMethods| == 0 || verb in terms.allowedMethods) &&
              (forall j :: 0 <= j < |terms.params| ==> Has(query, terms.params[j]))
    // a method that is allowed fails only on the first missing param, in list order
    ensures (|terms.allowedMethods| == 0 || verb in terms.allowedMethods) && r.Fail? ==>
              exists i :: 0 <= i < |terms.params| && !Has(query, terms.params[i]) &&
                (forall j :: 0 <= j < i ==> Has(query, terms.params[j])) &&
                r.message == ParamRequired(terms.params[i])
  {
    if |terms.allowedMethods| > 0 && verb !in terms.allowedMethods then
      Fail(MethodNotAllowed(verb))
    else if |terms.params| > 0 then
      match FirstMissing(terms.params, query, 0)
      case None => Pass
      case Some(i) => Fail(ParamRequired(terms.params[i]))
    else
      Pass
  }

  /** An empty allow-list accepts every method; only the parameters are checked. */
  lemma EmptyAllowListAcceptsAnyMethod(verb: string, other: string, query: SearchParams, params: seq<string>)
    ensures ValidateRequest(verb, query, Terms([], params)) == ValidateRequest(other, query, Terms([], params))
  {
  }

  /** `?code=` with an empty value satisfies a required `code`. */
  lemma EmptyValueCountsAsPresent(verb: string, allowed: seq<string>)
    requires verb in allowed
    ensures ValidateRequest(verb, [("code", "")], Terms(allowed, ["code"])) == Pass
  {
    assert [("code", "")][0].0 == "code";
  }
}
