/**
 * What every controller variant shares: the replies of the network calls an
 * `add` may make (given as values, so that `add` is a deterministic decision),
 * the calls it issues, and the response record it returns.
 */
module Reconcile {
  import opened Strings
  import opened Json

  /** The body of an HTTP response, as `response.json()` sees it. */
  datatype Body = Parsed(json: Value) | Unparseable

  /** The catalog lookup: a failure (rethrown), a `null` body, or the candidate list. */
  datatype LookupReply = LookupFails | LookupNull | LookupList(candidates: seq<Record>)

  /** The queue-details request: a failure, a body that is not a list, or the entries. */
  datatype QueueReply = QueueFails | QueueNotList | QueueList(entries: seq<Value>)

  /** A POST: a rejected `fetch`, or a status and a body. */
  datatype PostReply = PostFails | PostAnswer(status: int, body: Body)

  /** The replies the service gives to one `add`. */
  datatype Net = Net(lookup: LookupReply, queue: QueueReply, search: PostReply, create: PostReply)

  /** A request an `add` sends. */
  datatype Call =
    | LookupCall(name: Value, year: Value)
    | QueueCall(movieId: Value)
    | SearchCall(movieIds: seq<Value>)
    | CreateCall(request: Record)

  /** `{success, message, title, year, imdbId, tmdbId, errors}`. */
  datatype Response = Response(success: bool, message: string, title: Value, year: Value,
                               imdbId: Value, tmdbId: Value, errors: Value)

  /** The response an `add` returns and the requests it sent, in order. */
  datatype Run = Run(result: Response, trace: seq<Call>)

  /** How a controller turns the first catalog match into a request; `None` when building throws. */
  type Builder = Record -> Option<Record>

  /** The lookup gave candidates and the first one yields `request`. */
  predicate Built(build: Builder, net: Net, request: Record) {
    net.lookup.LookupList? && net.lookup.candidates != [] && build(net.lookup.candidates[0]) == Some(request)
  }

  /** `process.env`: the variables that are set, each with its text. */
  type Env = map<string, string>

  /** `process.env[k]`: the variable's text, or `undefined` when it is not set. */
  function EnvValue(env: Env, k: string): (v: Value)
    ensures k in env <==> v.Str?
    ensures k in env ==> v == Str(env[k])
    ensures k !in env ==> v == Undefined
  {
    if k in env then Str(env[k]) else Undefined
  }

  const NoResultsMessage := "No results found"
  const UnexpectedMessage := "Unexpected error occurred"
  const ApiSuffix := "/api/v3"
  const CreatedStatus := 201

  /**
   * `generateResponseStructure(success, message, title = '', year = '',
   * imdbId = '', tmdbId = '', errors = null)`: an argument passed as
   * `undefined` takes its default.
   */
  function Respond(success: bool, message: string, title: Value, year: Value,
                   imdbId: Value, tmdbId: Value, errors: Value): (r: Response)
    ensures r.success == success && r.message == message
    ensures r.title != Undefined && r.year != Undefined && r.imdbId != Undefined && r.tmdbId != Undefined
    ensures r.errors != Undefined
    ensures title != Undefined ==> r.title == title
    ensures year != Undefined ==> r.year == year
    ensures imdbId != Undefined ==> r.imdbId == imdbId
    ensures tmdbId != Undefined ==> r.tmdbId == tmdbId
    ensures errors != Undefined ==> r.errors == errors
    ensures title == Undefined ==> r.title == Str("")
    ensures year == Undefined ==> r.year == Str("")
    ensures imdbId == Undefined ==> r.imdbId == Str("")
    ensures tmdbId == Undefined ==> r.tmdbId == Str("")
    ensures errors == Undefined ==> r.errors == Null
  {
    Response(success, message, Default(title, Str("")), Default(year, Str("")),
             Default(imdbId, Str("")), Default(tmdbId, Str("")), Default(errors, Null))
  }

  /** The response of the catch-all handler: every field at its default. */
  function Unexpected(): (r: Response)
    ensures !r.success && r.message == UnexpectedMessage
    ensures r.title == r.year == r.imdbId == r.tmdbId == Str("") && r.errors == Null
  {
    Respond(false, UnexpectedMessage, Undefined, Undefined, Undefined, Undefined, Undefined)
  }

  /** The response when the lookup found nothing: the query's own name and year. */
  function NoResults(name: Value, year: Value): (r: Response)
    ensures !r.success && r.message == NoResultsMessage
    ensures r.imdbId == r.tmdbId == Str("") && r.errors == Null
    ensures name != Undefined ==> r.title == name
    ensures year != Undefined ==> r.year == year
  {
    Respond(false, NoResultsMessage, name, year, Undefined, Undefined, Undefined)
  }

  /** The response about a catalog match: its title, year and identifiers. */
  function AboutMatch(success: bool, message: string, request: Record, errors: Value): Response {
    Respond(success, message, Field(request, "title"), Field(request, "year"),
            Field(request, "imdbId"), Field(request, "tmdbId"), errors)
  }

  /** `!lookup || lookup.length === 0`. */
  predicate NoCandidates(reply: LookupReply) {
    reply.LookupNull? || (reply.LookupList? && reply.candidates == [])
  }

  /** `typeof request.id !== 'undefined'`: the service already tracks this title. */
  predicate Tracked(request: Record) {
    Field(request, "id") != Undefined
  }

  predicate SendsCreate(trace: seq<Call>) {
    exists i :: 0 <= i < |trace| && trace[i].CreateCall?
  }

  predicate SendsSearch(trace: seq<Call>) {
    exists i :: 0 <= i < |trace| && trace[i].SearchCall?
  }

  predicate SendsQueueCheck(trace: seq<Call>) {
    exists i :: 0 <= i < |trace| && trace[i].QueueCall?
  }

  /** One `add`, given the item's name and year and the replies to its calls. */
  type Adder = (Value, Value, Net) -> Run

  /**
   * The run of `add` for item `i` of a `bulkAdd`, queried by the item's
   * `nameKey` and `yearKey` fields (`title`/`year` for movies).
   */
  function ItemRun(add: Adder, nameKey: string, yearKey: string, items: seq<Record>, replies: nat -> Net, i: nat): Run
    requires i < |items|
  {
    add(Field(items[i], nameKey), Field(items[i], yearKey), replies(i))
  }

  /** The responses of a sequential `bulkAdd` of the first `n` items, in order. */
  function BulkResults(add: Adder, nameKey: string, yearKey: string, items: seq<Record>, replies: nat -> Net,
                       n: nat): (r: seq<Response>)
    requires n <= |items|
    ensures |r| == n
  {
    if n == 0 then []
    else BulkResults(add, nameKey, yearKey, items, replies, n - 1) +
         [ItemRun(add, nameKey, yearKey, items, replies, n - 1).result]
  }

  /** The calls of a sequential `bulkAdd` of the first `n` items: each item's calls, item after item. */
  function BulkTrace(add: Adder, nameKey: string, yearKey: string, items: seq<Record>, replies: nat -> Net,
                     n: nat): seq<Call>
    requires n <= |items|
  {
    if n == 0 then []
    else BulkTrace(add, nameKey, yearKey, items, replies, n - 1) +
         ItemRun(add, nameKey, yearKey, items, replies, n - 1).trace
  }

  /** Response `i` of a bulk add is the response of adding item `i` alone. */
  lemma {:induction false} BulkResultsAt(add: Adder, nameKey: string, yearKey: string, items: seq<Record>,
                                         replies: nat -> Net, n: nat, i: nat)
    requires i < n <= |items|
    ensures BulkResults(add, nameKey, yearKey, items, replies, n)[i] ==
            ItemRun(add, nameKey, yearKey, items, replies, i).result
  {
    if i < n - 1 {
      BulkResultsAt(add, nameKey, yearKey, items, replies, n - 1, i);
    }
  }

  /** Every response of a bulk add is the response of adding that item alone. */
  lemma BulkResultsEach(add: Adder, nameKey: string, yearKey: string, items: seq<Record>, replies: nat -> Net, n: nat)
    requires n <= |items|
    ensures forall i :: 0 <= i < n ==>
      BulkResults(add, nameKey, yearKey, items, replies, n)[i] == ItemRun(add, nameKey, yearKey, items, replies, i).result
  {
    forall i | 0 <= i < n
      ensures BulkResults(add, nameKey, yearKey, items, replies, n)[i] == ItemRun(add, nameKey, yearKey, items, replies, i).result
    {
      BulkResultsAt(add, nameKey, yearKey, items, replies, n, i);
    }
  }

  /** The item calls of a bulk add appear in the bulk trace in order: the first `m` items' calls are a prefix. */
  lemma {:induction false} BulkTracePrefix(add: Adder, nameKey: string, yearKey: string, items: seq<Record>,
                                           replies: nat -> Net, m: nat, n: nat)
    requires m <= n <= |items|
    ensures |BulkTrace(add, nameKey, yearKey, items, replies, m)| <= |BulkTrace(add, nameKey, yearKey, items, replies, n)|
    ensures BulkTrace(add, nameKey, yearKey, items, replies, n)[..|BulkTrace(add, nameKey, yearKey, items, replies, m)|] ==
            BulkTrace(add, nameKey, yearKey, items, replies, m)
  {
    if m < n {
      BulkTracePrefix(add, nameKey, yearKey, items, replies, m, n - 1);
      var short := BulkTrace(add, nameKey, yearKey, items, replies, m);
      var mid := BulkTrace(add, nameKey, yearKey, items, replies, n - 1);
      var long := BulkTrace(add, nameKey, yearKey, items, replies, n);
      assert long == mid + ItemRun(add, nameKey, yearKey, items, replies, n - 1).trace;
      assert long[..|mid|] == mid;
      assert long[..|short|] == mid[..|short|];
    }
  }

  /** The constructors' `if (!url.endsWith('/api/v3')) url = `${url}/api/v3``. */
  function WithApiSuffix(url: string): (r: string)
    ensures EndsWith(r, ApiSuffix)
    ensures EndsWith(url, ApiSuffix) ==> r == url
    ensures !EndsWith(url, ApiSuffix) ==> r == url + ApiSuffix
    ensures |r| >= |url| && r[..|url|] == url
  {
    if EndsWith(url, ApiSuffix) then url else url + ApiSuffix
  }

  /** Applying the suffix rule to a URL it produced changes nothing. */
  lemma WithApiSuffixIdempotent(url: string)
    ensures WithApiSuffix(WithApiSuffix(url)) == WithApiSuffix(url)
  {
  }
}
