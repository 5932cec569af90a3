/**
 * The legacy movie controller of `classes/radarr.js`: a stateless singleton
 * reading the environment. It has no queue check; a tracked title that has
 * no file but is available is force-searched when the environment asks for
 * it, and the search reply is never inspected.
 */
module ClassesRadarr {
  import opened Json
  import opened Reconcile

  const MoviesFolder := "/mnt/Movies/"
  const ForceSearchVariable := "RADARR_FORCE_SEARCH_ON_EXISTING"

  const ExistsMessage := "Movie already exists"
  const ForcingMessage := "Movie already exists but is not downloaded, forcing a search for it and attempting to download it"
  const AddedMessage := "Movie added"
  const AddErrorMessage := "Error adding movie"

  /** Every message a legacy movie `add` can report. */
  const Messages := {NoResultsMessage, ExistsMessage, ForcingMessage, AddedMessage, AddErrorMessage, UnexpectedMessage}

  /** The keys `buildRequestObject` sets over the catalog match. */
  const PolicyKeys := {"qualityProfileId", "profileId", "path", "monitored", "minimumAvailability", "addOptions"}

  const AddOptions := Obj(map["ignoreEpisodesWithFiles" := Bool(false),
                              "ignoreEpisodesWithoutFiles" := Bool(false),
                              "searchForMovie" := Bool(true)])

  /**
   * `buildRequestObject(lookupResult)`: fixed profile 3 and a path under
   * `/mnt/Movies/`; the folder is inserted by a template literal, so this
   * never throws.
   */
  function BuildRequest(candidate: Record): (r: Record)
    ensures r.Keys == candidate.Keys + PolicyKeys
    ensures forall k :: k in candidate && k !in PolicyKeys ==> r[k] == candidate[k]
    ensures r["qualityProfileId"] == Num(3) && r["profileId"] == Num(3)
    ensures r["monitored"] == Bool(true) && r["minimumAvailability"] == Str("released")
    ensures r["addOptions"] == AddOptions
    ensures r["path"].Str? && |r["path"].s| >= |MoviesFolder| && r["path"].s[..|MoviesFolder|] == MoviesFolder
    ensures r["path"].s[|MoviesFolder|..] == Display(Field(candidate, "folder"))
  {
    candidate + map["qualityProfileId" := Num(3),
                    "profileId" := Num(3),
                    "path" := Str(MoviesFolder + Display(Field(candidate, "folder"))),
                    "monitored" := Bool(true),
                    "minimumAvailability" := Str("released"),
                    "addOptions" := AddOptions]
  }

  /** `process.env.RADARR_FORCE_SEARCH_ON_EXISTING == 'true'`. */
  predicate ForceSearch(env: Env) {
    ForceSearchVariable in env && env[ForceSearchVariable] == "true"
  }

  /** The condition under which a tracked title is force-searched; `force` is `ForceSearch(env)`. */
  predicate SearchWanted(force: bool, request: Record) {
    !Truthy(Field(request, "hasFile")) && Truthy(Field(request, "isAvailable")) && force
  }

  /** How the legacy controller builds its request; it never throws. */
  type RequestBuilder = Record -> Record

  /** The lookup gave candidates; `request` is built from the first. */
  predicate FirstRequest(build: RequestBuilder, net: Net, request: Record) {
    net.lookup.LookupList? && net.lookup.candidates != [] && request == build(net.lookup.candidates[0])
  }

  /**
   * `add(movieName, movieYear)` as a function of the force-search setting, the
   * request builder and the replies: the lookup, then the first match.
   */
  function LegacyMovieAdd(force: bool, build: RequestBuilder, name: Value, year: Value, net: Net): (run: Run)
    ensures |run.trace| > 0 && run.trace[0] == LookupCall(name, year)
    ensures run.result.message in Messages
  {
    var sent := [LookupCall(name, year)];
    match net.lookup
    case LookupFails => Run(Unexpected(), sent)
    case LookupNull => Run(NoResults(name, year), sent)
    case LookupList(candidates) =>
      if candidates == [] then Run(NoResults(name, year), sent)
      else LegacyDecide(force, build(candidates[0]), net, sent)
  }

  /** A tracked match is reported, and maybe searched; an untracked one is created. */
  function LegacyDecide(force: bool, request: Record, net: Net, sent: seq<Call>): (run: Run)
    ensures |sent| <= |run.trace| <= |sent| + 1 && run.trace[..|sent|] == sent
    ensures run.result.message in Messages
  {
    if Tracked(request) then LegacyExisting(force, request, net, sent)
    else LegacyCreate(request, net, sent)
  }

  /** A tracked title: one search for `[id]` when wanted, whose reply is not read beyond a rejection. */
  function LegacyExisting(force: bool, request: Record, net: Net, sent: seq<Call>): (run: Run)
    ensures |sent| <= |run.trace| <= |sent| + 1 && run.trace[..|sent|] == sent
    ensures |run.trace| == |sent| + 1 ==> run.trace[|sent|] == SearchCall([Field(request, "id")])
    ensures run.result.message in Messages
  {
    if SearchWanted(force, request) then
      var sent := sent + [SearchCall([Field(request, "id")])];
      if net.search.PostFails? then Run(Unexpected(), sent)
      else Run(AboutMatch(false, ForcingMessage, request, Undefined), sent)
    else Run(AboutMatch(false, ExistsMessage, request, Undefined), sent)
  }

  /** An untracked title is registered with one create request. */
  function LegacyCreate(request: Record, net: Net, sent: seq<Call>): (run: Run)
    ensures |run.trace| == |sent| + 1 && run.trace[..|sent|] == sent
    ensures run.result.message in Messages
  {
    var sent := sent + [CreateCall(request)];
    match net.create
    case PostFails => Run(Unexpected(), sent)
    case PostAnswer(status, body) =>
      if status == CreatedStatus then Run(AboutMatch(true, AddedMessage, request, Undefined), sent)
      else
        match body
        case Unparseable => Run(Unexpected(), sent)
        case Parsed(errors) => Run(AboutMatch(false, AddErrorMessage, request, errors), sent)
  }

  /** `add(movieName, movieYear)`, statement by statement: never throws, returns one response. */
  method Add(env: Env, movieName: Value, movieYear: Value, net: Net) returns (result: Response, trace: seq<Call>)
    ensures Run(result, trace) == LegacyMovieAdd(ForceSearch(env), BuildRequest, movieName, movieYear, net)
  {
    trace := [LookupCall(movieName, movieYear)];
    if net.lookup.LookupFails? {
      result := Unexpected();
      return;
    }
    if NoCandidates(net.lookup) {
      result := NoResults(movieName, movieYear);
      return;
    }
    var request := BuildRequest(net.lookup.candidates[0]);

    if Field(request, "id") != Undefined {
      var msg := ExistsMessage;
      if !Truthy(Field(request, "hasFile")) && Truthy(Field(request, "isAvailable")) && ForceSearch(env) {
        msg := ForcingMessage;
        trace := trace + [SearchCall([Field(request, "id")])];
        if net.search.PostFails? {
          result := Unexpected();
          return;
        }
      }
      result := AboutMatch(false, msg, request, Undefined);
      return;
    }

    trace := trace + [CreateCall(request)];
    match net.create {
      case PostFails =>
        result := Unexpected();
      case PostAnswer(status, body) =>
        if status == CreatedStatus {
          result := AboutMatch(true, AddedMessage, request, Undefined);
        } else if body.Unparseable? {
          result := Unexpected();
        } else {
          result := AboutMatch(false, AddErrorMessage, request, body.json);
        }
    }
  }

  /** `add` with a force-search setting and a request builder, as one function. */
  function LegacyAdder(force: bool, build: RequestBuilder): Adder {
    (name, year, net) => LegacyMovieAdd(force, build, name, year, net)
  }

  /** `bulkAdd(movieList)`: one `add(movie.title, movie.year)` after the other, in order. */
  method BulkAdd(env: Env, movieList: seq<Record>, replies: nat -> Net) returns (results: seq<Response>, trace: seq<Call>)
    ensures |results| == |movieList|
    ensures forall i :: 0 <= i < |movieList| ==>
      results[i] == LegacyMovieAdd(ForceSearch(env), BuildRequest,
                                   Field(movieList[i], "title"), Field(movieList[i], "year"), replies(i)).result
    ensures results == BulkResults(LegacyAdder(ForceSearch(env), BuildRequest), "title", "year", movieList, replies, |movieList|)
    ensures trace == BulkTrace(LegacyAdder(ForceSearch(env), BuildRequest), "title", "year", movieList, replies, |movieList|)
  {
    results := [];
    trace := [];
    ghost var add := LegacyAdder(ForceSearch(env), BuildRequest);
    for i := 0 to |movieList|
      invariant results == BulkResults(add, "title", "year", movieList, replies, i)
      invariant trace == BulkTrace(add, "title", "year", movieList, replies, i)
    {
      var result, sent := Add(env, Field(movieList[i], "title"), Field(movieList[i], "year"), replies(i));
      assert Run(result, sent) == ItemRun(add, "title", "year", movieList, replies, i);
      results := results + [result];
      trace := trace + sent;
    }
    forall i | 0 <= i < |movieList|
      ensures results[i] == LegacyMovieAdd(ForceSearch(env), BuildRequest,
                                           Field(movieList[i], "title"), Field(movieList[i], "year"), replies(i)).result
    {
      BulkResultsAt(add, "title", "year", movieList, replies, |movieList|, i);
    }
  }

  /** With candidates, `add` continues with the first match's request after the lookup. */
  lemma AddReachesDecide(force: bool, build: RequestBuilder, name: Value, year: Value, net: Net, request: Record)
    requires FirstRequest(build, net, request)
    ensures LegacyMovieAdd(force, build, name, year, net) == LegacyDecide(force, request, net, [LookupCall(name, year)])
  {
  }

  /** An empty or `null` lookup reports "No results found" for the query and sends nothing else. */
  lemma NoResultsSendsOnlyLookup(force: bool, build: RequestBuilder, name: Value, year: Value, net: Net)
    requires NoCandidates(net.lookup)
    ensures LegacyMovieAdd(force, build, name, year, net) == Run(NoResults(name, year), [LookupCall(name, year)])
  {
  }

  /** The legacy controller never asks for the queue. */
  lemma NeverChecksQueue(force: bool, build: RequestBuilder, name: Value, year: Value, net: Net)
    ensures !SendsQueueCheck(LegacyMovieAdd(force, build, name, year, net).trace)
  {
    var trace := LegacyMovieAdd(force, build, name, year, net).trace;
    if net.lookup.LookupList? && net.lookup.candidates != [] {
      var request := build(net.lookup.candidates[0]);
      AddReachesDecide(force, build, name, year, net, request);
      assert |trace| == 1 || trace[1] == SearchCall([Field(request, "id")]) || trace[1] == CreateCall(request);
    }
    assert forall i :: 0 <= i < |trace| ==> !trace[i].QueueCall?;
  }

  /**
   * A search is sent exactly when the first match is tracked, has no file, is
   * available, and the environment variable is `true`; it is the only search.
   */
  lemma SearchExactlyWhenWanted(force: bool, build: RequestBuilder, name: Value, year: Value, net: Net)
    ensures SendsSearch(LegacyMovieAdd(force, build, name, year, net).trace) <==>
      exists request :: FirstRequest(build, net, request) && Tracked(request) && SearchWanted(force, request)
    ensures SendsSearch(LegacyMovieAdd(force, build, name, year, net).trace) ==>
      var request := build(net.lookup.candidates[0]);
      LegacyMovieAdd(force, build, name, year, net).trace == [LookupCall(name, year), SearchCall([Field(request, "id")])]
  {
    var trace := LegacyMovieAdd(force, build, name, year, net).trace;
    if net.lookup.LookupList? && net.lookup.candidates != [] {
      var request := build(net.lookup.candidates[0]);
      assert FirstRequest(build, net, request);
      AddReachesDecide(force, build, name, year, net, request);
      if Tracked(request) && SearchWanted(force, request) {
        assert trace == [LookupCall(name, year), SearchCall([Field(request, "id")])];
        assert trace[1].SearchCall?;
      } else {
        assert |trace| == 1 || trace[1] == CreateCall(request);
        assert forall i :: 0 <= i < |trace| ==> !trace[i].SearchCall?;
      }
    } else {
      assert |trace| == 1;
    }
  }

  /**
   * The forcing message does not depend on the search's reply: any status
   * reports it; only a rejected `fetch` turns into the catch-all response.
   */
  lemma SearchReplyIgnored(force: bool, build: RequestBuilder, name: Value, year: Value, net: Net,
                           status: int, other: int, body: Body, otherBody: Body)
    ensures LegacyMovieAdd(force, build, name, year, net.(search := PostAnswer(status, body))) ==
            LegacyMovieAdd(force, build, name, year, net.(search := PostAnswer(other, otherBody)))
  {
    var one, two := net.(search := PostAnswer(status, body)), net.(search := PostAnswer(other, otherBody));
    if net.lookup.LookupList? && net.lookup.candidates != [] {
      var request := build(net.lookup.candidates[0]);
      AddReachesDecide(force, build, name, year, one, request);
      AddReachesDecide(force, build, name, year, two, request);
      var sent := [LookupCall(name, year)];
      assert LegacyExisting(force, request, one, sent) == LegacyExisting(force, request, two, sent);
      assert LegacyCreate(request, one, sent) == LegacyCreate(request, two, sent);
    }
  }

  /** A tracked title is never sent for creation, whatever the flags and replies. */
  lemma TrackedTitleNeverCreated(force: bool, build: RequestBuilder, name: Value, year: Value, net: Net, request: Record)
    requires FirstRequest(build, net, request) && Tracked(request)
    ensures !SendsCreate(LegacyMovieAdd(force, build, name, year, net).trace)
    ensures !LegacyMovieAdd(force, build, name, year, net).result.success
  {
    AddReachesDecide(force, build, name, year, net, request);
    var trace := LegacyMovieAdd(force, build, name, year, net).trace;
    assert |trace| == 1 || trace[1] == SearchCall([Field(request, "id")]);
    assert forall i :: 0 <= i < |trace| ==> !trace[i].CreateCall?;
  }

  /** `success` is reported exactly when an untracked first match was created with status 201. */
  lemma SuccessMeansCreated(force: bool, build: RequestBuilder, name: Value, year: Value, net: Net)
    ensures LegacyMovieAdd(force, build, name, year, net).result.success <==>
      exists request :: FirstRequest(build, net, request) && !Tracked(request) &&
        net.create.PostAnswer? && net.create.status == CreatedStatus
  {
    if net.lookup.LookupList? && net.lookup.candidates != [] {
      var request := build(net.lookup.candidates[0]);
      assert FirstRequest(build, net, request);
      AddReachesDecide(force, build, name, year, net, request);
    }
  }

  /** An untracked match: exactly one create request for the built request; 201 is success. */
  lemma UntrackedTitleCreatedOnce(force: bool, build: RequestBuilder, name: Value, year: Value, net: Net, request: Record)
    requires FirstRequest(build, net, request) && !Tracked(request)
    ensures LegacyMovieAdd(force, build, name, year, net).trace == [LookupCall(name, year), CreateCall(request)]
    ensures net.create.PostAnswer? && net.create.status == CreatedStatus ==>
      LegacyMovieAdd(force, build, name, year, net).result == AboutMatch(true, AddedMessage, request, Undefined)
    ensures net.create.PostAnswer? && net.create.status != CreatedStatus && net.create.body.Parsed? ==>
      LegacyMovieAdd(force, build, name, year, net).result == AboutMatch(false, AddErrorMessage, request, net.create.body.json)
    ensures net.create.PostFails? || (net.create.PostAnswer? && net.create.status != CreatedStatus && net.create.body.Unparseable?) ==>
      LegacyMovieAdd(force, build, name, year, net).result == Unexpected()
  {
    AddReachesDecide(force, build, name, year, net, request);
  }

  /** A wanted search whose `fetch` is rejected ends in the catch-all response, after the search call. */
  lemma RejectedSearchIsUnexpected(force: bool, build: RequestBuilder, name: Value, year: Value, net: Net, request: Record)
    requires FirstRequest(build, net, request) && Tracked(request) && SearchWanted(force, request)
    requires net.search.PostFails?
    ensures LegacyMovieAdd(force, build, name, year, net) ==
      Run(Unexpected(), [LookupCall(name, year), SearchCall([Field(request, "id")])])
  {
    AddReachesDecide(force, build, name, year, net, request);
  }
}
