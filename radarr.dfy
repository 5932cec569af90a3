/**
 * The current movie controller (`RadarrController`): construction from the
 * configuration, the queue-status classification, the `add` decision and the
 * sequential `bulkAdd`.
 *
 * `MovieAdd` is the reference definition of one `add`; the controller's
 * `Add` method follows the source statement by statement and is proved to
 * compute exactly `MovieAdd`.
 */
module Radarr {
  import opened Strings
  import opened Json
  import opened Paths
  import opened Reconcile

  const DefaultUrl := "http://localhost:7878"

  const DownloadingMessage := "Movie is already downloading"
  const ImportingMessage := "Movie is importing, wait a few minutes"
  const NotDownloadedMessage := "Movie exists, but isn't downloaded"
  const NotReleasedMessage := "Movie is not out yet, still in cinemas or production."
  const HasFileMessage := "Movie already exists, doing nothing!"
  const SearchingMessage := "Movie is downloading now"
  const SearchErrorMessage := "An error has occurred"
  const AddedMessage := "Movie added and downloading"
  const AddErrorMessage := "Error adding movie"

  /** Every message a movie `add` can report. */
  const Messages := {NoResultsMessage, DownloadingMessage, ImportingMessage, NotDownloadedMessage,
                     NotReleasedMessage, HasFileMessage, SearchingMessage, SearchErrorMessage,
                     AddedMessage, AddErrorMessage, UnexpectedMessage}

  /** The controller fields `add` depends on. */
  datatype MoviePolicy = MoviePolicy(qualityProfileId: Value, forceSearch: Value, rootFolder: string)

  datatype QueueStatus = Downloading | Importing | NotQueued

  /**
   * `checkQueueStatus`: the status of the first queue entry, lower-cased. A
   * failed request, a body that is not a list, an empty list, an entry whose
   * `status` is missing or not a string, and any other status all give
   * `NotQueued` (the source's `null`).
   */
  function CheckQueueStatus(reply: QueueReply): QueueStatus {
    match reply
    case QueueList(entries) => if entries == [] then NotQueued else EntryStatus(entries[0])
    case _ => NotQueued
  }

  function EntryStatus(entry: Value): QueueStatus {
    match entry
    case Obj(fields) =>
      (match Field(fields, "status")
       case Str(s) =>
         var status := Lower(s);
         if status == "downloading" then Downloading
         else if status == "importing" then Importing
         else NotQueued
       case _ => NotQueued)
    case _ => NotQueued
  }

  function QueueMessage(status: QueueStatus): string
    requires status != NotQueued
  {
    if status == Downloading then DownloadingMessage else ImportingMessage
  }

  /** The queue check fails open, reads only the first entry and ignores case. */
  lemma CheckQueueStatusSpec(reply: QueueReply, first: Value, rest: seq<Value>, fields: Record, s: string, t: string)
    ensures reply.QueueFails? || reply.QueueNotList? || reply == QueueList([]) ==> CheckQueueStatus(reply) == NotQueued
    ensures !first.Obj? ==> CheckQueueStatus(QueueList([first] + rest)) == NotQueued
    ensures !Field(fields, "status").Str? ==> CheckQueueStatus(QueueList([Obj(fields)] + rest)) == NotQueued
    ensures CheckQueueStatus(QueueList([first] + rest)) == CheckQueueStatus(QueueList([first]))
    ensures Lower(s) == Lower(t) ==>
      CheckQueueStatus(QueueList([Obj(fields["status" := Str(s)])])) ==
      CheckQueueStatus(QueueList([Obj(fields["status" := Str(t)])]))
    ensures CheckQueueStatus(QueueList([Obj(fields["status" := Str(s)])])) == Downloading <==> Lower(s) == "downloading"
    ensures CheckQueueStatus(QueueList([Obj(fields["status" := Str(s)])])) == Importing <==> Lower(s) == "importing"
  {
  }

  /** The keys `buildRequestObject` sets over the catalog match. */
  const PolicyKeys := {"qualityProfileId", "profileId", "path", "monitored", "minimumAvailability", "addOptions"}

  /** Search for the movie once it is added. */
  const AddOptions := Obj(map["ignoreEpisodesWithFiles" := Bool(false),
                              "ignoreEpisodesWithoutFiles" := Bool(false),
                              "searchForMovie" := Bool(true)])

  function PolicyFields(p: MoviePolicy, folder: string): (r: Record)
    ensures r.Keys == PolicyKeys
    ensures r["addOptions"] == AddOptions
    ensures r["qualityProfileId"] == p.qualityProfileId && r["profileId"] == p.qualityProfileId
    ensures r["monitored"] == Bool(true) && r["minimumAvailability"] == Str("released")
    ensures r["path"] == Str(Place(p.rootFolder, folder))
  {
    map["qualityProfileId" := p.qualityProfileId,
        "profileId" := p.qualityProfileId,
        "path" := Str(Place(p.rootFolder, folder)),
        "monitored" := Bool(true),
        "minimumAvailability" := Str("released"),
        "addOptions" := AddOptions]
  }

  /**
   * `buildRequestObject`: the catalog match with the policy keys set over it;
   * `path.normalize` throws (`None`) when the match has no string `folder`.
   */
  function BuildRequest(p: MoviePolicy, candidate: Record): (r: Option<Record>)
    ensures r.Some? <==> Field(candidate, "folder").Str?
    ensures r.Some? ==> r.value.Keys == candidate.Keys + PolicyKeys
    ensures r.Some? ==> forall k :: k in candidate && k !in PolicyKeys ==> r.value[k] == candidate[k]
    ensures r.Some? ==> r.value["qualityProfileId"] == p.qualityProfileId && r.value["profileId"] == p.qualityProfileId
    ensures r.Some? ==> r.value["monitored"] == Bool(true) && r.value["minimumAvailability"] == Str("released")
    ensures r.Some? ==> r.value["addOptions"] == AddOptions
    ensures r.Some? ==> r.value["path"] == Str(Place(p.rootFolder, Field(candidate, "folder").s))
  {
    match Field(candidate, "folder")
    case Str(folder) => Some(candidate + PolicyFields(p, folder))
    case _ => None
  }

  /** The controller's `buildRequestObject`, as the builder the `add` decision uses. */
  function RequestBuilder(p: MoviePolicy): Builder {
    c => BuildRequest(p, c)
  }

  /**
   * Step 1 of `add`: the lookup, then the request built from the first
   * candidate; `force` is the controller's force-search flag. `lookup` logs
   * `data.length` before it returns, so a `null` body throws there.
   */
  function MovieAdd(force: Value, build: Builder, name: Value, year: Value, net: Net): (run: Run)
    ensures |run.trace| > 0 && run.trace[0] == LookupCall(name, year)
    ensures run.result.message in Messages
  {
    var sent := [LookupCall(name, year)];
    match net.lookup
    case LookupFails => Run(Unexpected(), sent)
    case LookupNull => Run(Unexpected(), sent)
    case LookupList(candidates) =>
      if candidates == [] then Run(NoResults(name, year), sent)
      else
        match build(candidates[0])
        case None => Run(Unexpected(), sent)
        case Some(request) => MovieDecide(force, request, net, sent)
  }

  /** Step 2: a truthy `id` is checked against the queue first. */
  function MovieDecide(force: Value, request: Record, net: Net, sent: seq<Call>): (run: Run)
    ensures |run.trace| >= |sent| && run.trace[..|sent|] == sent
    ensures run.result.message in Messages
  {
    var id := Field(request, "id");
    var status := if Truthy(id) then CheckQueueStatus(net.queue) else NotQueued;
    var sent := if Truthy(id) then sent + [QueueCall(id)] else sent;
    if status != NotQueued then Run(AboutMatch(false, QueueMessage(status), request, Undefined), sent)
    else if id != Undefined then MovieExisting(force, request, net, sent)
    else MovieCreate(request, net, sent)
  }

  /** Step 3: a tracked title, by availability, file and the force-search flag. */
  function MovieExisting(force: Value, request: Record, net: Net, sent: seq<Call>): (run: Run)
    ensures |run.trace| >= |sent| && run.trace[..|sent|] == sent
    ensures run.result.message in Messages
  {
    if !Truthy(Field(request, "isAvailable")) then
      Run(AboutMatch(false, NotReleasedMessage, request, Undefined), sent)
    else if Field(request, "movieFileId") != Num(0) then
      Run(AboutMatch(false, HasFileMessage, request, Undefined), sent)
    else if Truthy(force) then
      var sent := sent + [SearchCall([Field(request, "id")])];
      match net.search
      case PostFails => Run(Unexpected(), sent)
      case PostAnswer(status, _) =>
        var message := if status == CreatedStatus then SearchingMessage else SearchErrorMessage;
        Run(AboutMatch(false, message, request, Undefined), sent)
    else
      Run(AboutMatch(false, NotDownloadedMessage, request, Undefined), sent)
  }

  /** Step 4: an untracked title is registered with one create request. */
  function MovieCreate(request: Record, net: Net, sent: seq<Call>): (run: Run)
    ensures |run.trace| >= |sent| && run.trace[..|sent|] == sent
    ensures run.result.message in Messages
  {
    var sent := sent + [CreateCall(request)];
    match net.create
    case PostFails => Run(Unexpected(), sent)
    case PostAnswer(status, body) =>
      if status == CreatedStatus then Run(AboutMatch(true, AddedMessage, request, Undefined), sent)
      else
        match body
        case Unparseable => Run(Unexpected(), sent)
        case Parsed(errors) => Run(AboutMatch(false, AddErrorMessage, request, errors), sent)
  }

  /** `add` with the controller's force-search flag and request builder, as one function. */
  function MovieAdder(force: Value, build: Builder): Adder {
    (name, year, net) => MovieAdd(force, build, name, year, net)
  }

  /** The calls before the existence branch: the lookup, and the queue check for a truthy `id`. */
  function Preamble(name: Value, year: Value, request: Record): seq<Call> {
    var id := Field(request, "id");
    [LookupCall(name, year)] + if Truthy(id) then [QueueCall(id)] else []
  }

  /** With a first request built, `add` continues with step 2 after the lookup. */
  lemma AddReachesDecide(force: Value, build: Builder, name: Value, year: Value, net: Net, request: Record)
    requires Built(build, net, request)
    ensures MovieAdd(force, build, name, year, net) == MovieDecide(force, request, net, [LookupCall(name, year)])
  {
  }

  /** A tracked request the queue does not hold goes on to step 3 after the preamble. */
  lemma DecideReachesExisting(force: Value, name: Value, year: Value, net: Net, request: Record)
    requires Tracked(request)
    requires !Truthy(Field(request, "id")) || CheckQueueStatus(net.queue) == NotQueued
    ensures MovieDecide(force, request, net, [LookupCall(name, year)]) ==
            MovieExisting(force, request, net, Preamble(name, year, request))
  {
  }

  /** An untracked request goes straight to step 4: its `id` is undefined, so no queue check. */
  lemma DecideReachesCreate(force: Value, name: Value, year: Value, net: Net, request: Record)
    requires !Tracked(request)
    ensures MovieDecide(force, request, net, [LookupCall(name, year)]) ==
            MovieCreate(request, net, [LookupCall(name, year)])
  {
  }

  /** Steps 2 to 4 read only the queue, search and create replies. */
  lemma DecideIgnoresLookup(force: Value, request: Record, net: Net, other: Net, sent: seq<Call>)
    requires other.queue == net.queue && other.search == net.search && other.create == net.create
    ensures MovieDecide(force, request, net, sent) == MovieDecide(force, request, other, sent)
  {
    var id := Field(request, "id");
    var sent' := if Truthy(id) then sent + [QueueCall(id)] else sent;
    assert MovieExisting(force, request, net, sent') == MovieExisting(force, request, other, sent');
    assert MovieCreate(request, net, sent') == MovieCreate(request, other, sent');
  }

  /** An empty lookup reports "No results found" for the query and sends nothing else. */
  lemma NoResultsSendsOnlyLookup(force: Value, build: Builder, name: Value, year: Value, net: Net)
    requires net.lookup == LookupList([])
    ensures MovieAdd(force, build, name, year, net) == Run(NoResults(name, year), [LookupCall(name, year)])
  {
  }

  /**
   * A failed lookup, a `null` lookup body, and a first match the controller
   * cannot build a request from (for `buildRequestObject`, one without a
   * string `folder`), end in the catch-all response after the lookup alone.
   */
  lemma FailuresAreUnexpected(p: MoviePolicy, name: Value, year: Value, net: Net)
    ensures net.lookup.LookupFails? || net.lookup.LookupNull? ==>
      MovieAdd(p.forceSearch, RequestBuilder(p), name, year, net) == Run(Unexpected(), [LookupCall(name, year)])
    ensures net.lookup.LookupList? && net.lookup.candidates != [] && !Field(net.lookup.candidates[0], "folder").Str? ==>
      MovieAdd(p.forceSearch, RequestBuilder(p), name, year, net) == Run(Unexpected(), [LookupCall(name, year)])
  {
    if net.lookup.LookupList? && net.lookup.candidates != [] {
      assert RequestBuilder(p)(net.lookup.candidates[0]) == BuildRequest(p, net.lookup.candidates[0]);
    }
  }

  /** Only `lookup[0]` is used: later candidates never influence the result or the calls. */
  lemma OnlyFirstCandidateMatters(force: Value, build: Builder, name: Value, year: Value, net: Net,
                                  first: Record, rest: seq<Record>)
    ensures MovieAdd(force, build, name, year, net.(lookup := LookupList([first] + rest))) ==
            MovieAdd(force, build, name, year, net.(lookup := LookupList([first])))
  {
    var long, short := net.(lookup := LookupList([first] + rest)), net.(lookup := LookupList([first]));
    assert ([first] + rest)[0] == first;
    var built := build(first);
    if built.Some? {
      AddReachesDecide(force, build, name, year, long, built.value);
      AddReachesDecide(force, build, name, year, short, built.value);
      DecideIgnoresLookup(force, built.value, long, short, [LookupCall(name, year)]);
    }
  }

  /** A truthy `id` that the queue reports downloading or importing is skipped: no search, no create. */
  lemma QueuedTitleIsSkipped(force: Value, build: Builder, name: Value, year: Value, net: Net, request: Record)
    requires Built(build, net, request)
    requires Truthy(Field(request, "id")) && CheckQueueStatus(net.queue) != NotQueued
    ensures MovieAdd(force, build, name, year, net) ==
      Run(AboutMatch(false, QueueMessage(CheckQueueStatus(net.queue)), request, Undefined),
          [LookupCall(name, year), QueueCall(Field(request, "id"))])
    ensures !SendsSearch(MovieAdd(force, build, name, year, net).trace)
    ensures !SendsCreate(MovieAdd(force, build, name, year, net).trace)
  {
    AddReachesDecide(force, build, name, year, net, request);
    var trace := MovieAdd(force, build, name, year, net).trace;
    assert trace == [LookupCall(name, year), QueueCall(Field(request, "id"))];
    assert forall i :: 0 <= i < |trace| ==> trace[i].LookupCall? || trace[i].QueueCall?;
  }

  /**
   * A tracked title (`id` defined) that the queue does not hold: the message by
   * availability, then `movieFileId !== 0`, then the force-search flag, which
   * sends exactly one search for `[id]`.
   */
  lemma TrackedTitleOutcome(force: Value, build: Builder, name: Value, year: Value, net: Net, request: Record)
    requires Built(build, net, request) && Tracked(request)
    requires !Truthy(Field(request, "id")) || CheckQueueStatus(net.queue) == NotQueued
    ensures var run := MovieAdd(force, build, name, year, net);
            var pre := Preamble(name, year, request);
            var available := Truthy(Field(request, "isAvailable"));
            var hasFile := Field(request, "movieFileId") != Num(0);
            && (!available ==> run == Run(AboutMatch(false, NotReleasedMessage, request, Undefined), pre))
            && (available && hasFile ==> run == Run(AboutMatch(false, HasFileMessage, request, Undefined), pre))
            && (available && !hasFile && !Truthy(force) ==>
                  run == Run(AboutMatch(false, NotDownloadedMessage, request, Undefined), pre))
            && (available && !hasFile && Truthy(force) ==>
                  && run.trace == pre + [SearchCall([Field(request, "id")])]
                  && (net.search.PostFails? ==> run.result == Unexpected())
                  && (net.search.PostAnswer? && net.search.status == CreatedStatus ==>
                        run.result == AboutMatch(false, SearchingMessage, request, Undefined))
                  && (net.search.PostAnswer? && net.search.status != CreatedStatus ==>
                        run.result == AboutMatch(false, SearchErrorMessage, request, Undefined)))
  {
    AddReachesDecide(force, build, name, year, net, request);
    DecideReachesExisting(force, name, year, net, request);
  }

  /** A tracked title is never reported as a success and never causes a create request. */
  lemma TrackedTitleNeverCreated(force: Value, build: Builder, name: Value, year: Value, net: Net, request: Record)
    requires Built(build, net, request) && Tracked(request)
    ensures !MovieAdd(force, build, name, year, net).result.success
    ensures !SendsCreate(MovieAdd(force, build, name, year, net).trace)
  {
    var run := MovieAdd(force, build, name, year, net);
    var pre := Preamble(name, year, request);
    var id := Field(request, "id");
    if !Truthy(id) || CheckQueueStatus(net.queue) == NotQueued {
      TrackedTitleOutcome(force, build, name, year, net, request);
      assert run.trace == pre || run.trace == pre + [SearchCall([id])];
      assert forall i :: 0 <= i < |run.trace| ==> !run.trace[i].CreateCall?;
    } else {
      QueuedTitleIsSkipped(force, build, name, year, net, request);
    }
  }

  /** `id = 0` (defined but falsy) skips the queue check and still counts as tracked. */
  lemma ZeroIdSkipsQueueButIsTracked(force: Value, build: Builder, name: Value, year: Value, net: Net, request: Record)
    requires Built(build, net, request) && Field(request, "id") == Num(0)
    ensures !SendsQueueCheck(MovieAdd(force, build, name, year, net).trace)
    ensures !MovieAdd(force, build, name, year, net).result.success
    ensures !SendsCreate(MovieAdd(force, build, name, year, net).trace)
  {
    TrackedTitleNeverCreated(force, build, name, year, net, request);
    TrackedTitleOutcome(force, build, name, year, net, request);
    var run := MovieAdd(force, build, name, year, net);
    assert Preamble(name, year, request) == [LookupCall(name, year)];
    assert forall i :: 0 <= i < |run.trace| ==> run.trace[i].LookupCall? || run.trace[i].SearchCall?;
  }

  /** A tracked, released match without a `movieFileId` counts as having a file. */
  lemma MissingFileIdCountsAsFile(force: Value, build: Builder, name: Value, year: Value, net: Net, request: Record)
    requires Built(build, net, request) && Tracked(request)
    requires !Truthy(Field(request, "id")) || CheckQueueStatus(net.queue) == NotQueued
    requires Truthy(Field(request, "isAvailable")) && "movieFileId" !in request
    ensures MovieAdd(force, build, name, year, net).result.message == HasFileMessage
  {
    TrackedTitleOutcome(force, build, name, year, net, request);
  }

  /**
   * With a truthy force-search flag, as every constructed controller has, the
   * "exists, but isn't downloaded" outcome cannot happen.
   */
  lemma ForcedFlagLeavesNoIdleOutcome(force: Value, build: Builder, name: Value, year: Value, net: Net)
    requires Truthy(force)
    ensures MovieAdd(force, build, name, year, net).result.message != NotDownloadedMessage
  {
    if net.lookup.LookupList? && net.lookup.candidates != [] {
      var built := build(net.lookup.candidates[0]);
      if built.Some? {
        AddReachesDecide(force, build, name, year, net, built.value);
        ForcedDecideNeverIdle(force, built.value, net, [LookupCall(name, year)]);
      }
    }
  }

  /** Steps 2 to 4 with a truthy force-search flag never report "exists, but isn't downloaded". */
  lemma ForcedDecideNeverIdle(force: Value, request: Record, net: Net, sent: seq<Call>)
    requires Truthy(force)
    ensures MovieDecide(force, request, net, sent).result.message != NotDownloadedMessage
  {
    var id := Field(request, "id");
    var sent' := if Truthy(id) then sent + [QueueCall(id)] else sent;
    var status := if Truthy(id) then CheckQueueStatus(net.queue) else NotQueued;
    if status != NotQueued {
      assert QueueMessage(status) != NotDownloadedMessage;
    } else if id != Undefined {
      ForcedExistingNeverIdle(force, request, net, sent');
    } else {
      assert MovieCreate(request, net, sent').result.message != NotDownloadedMessage;
    }
  }

  /** Step 3 with a truthy force-search flag never reports "exists, but isn't downloaded". */
  lemma ForcedExistingNeverIdle(force: Value, request: Record, net: Net, sent: seq<Call>)
    requires Truthy(force)
    ensures MovieExisting(force, request, net, sent).result.message != NotDownloadedMessage
  {
  }

  /** An untracked title: exactly one create request; 201 is success, anything else reports the body. */
  lemma UntrackedTitleCreatedOnce(force: Value, build: Builder, name: Value, year: Value, net: Net, request: Record)
    requires Built(build, net, request) && !Tracked(request)
    ensures MovieAdd(force, build, name, year, net).trace == [LookupCall(name, year), CreateCall(request)]
    ensures net.create.PostAnswer? && net.create.status == CreatedStatus ==>
      MovieAdd(force, build, name, year, net).result == AboutMatch(true, AddedMessage, request, Undefined)
    ensures net.create.PostAnswer? && net.create.status != CreatedStatus && net.create.body.Parsed? ==>
      MovieAdd(force, build, name, year, net).result == AboutMatch(false, AddErrorMessage, request, net.create.body.json)
    ensures net.create.PostFails? || (net.create.PostAnswer? && net.create.status != CreatedStatus && net.create.body.Unparseable?) ==>
      MovieAdd(force, build, name, year, net).result == Unexpected()
  {
    AddReachesDecide(force, build, name, year, net, request);
    DecideReachesCreate(force, name, year, net, request);
  }

  /** `success` is reported exactly when an untracked first match was created with status 201. */
  lemma SuccessMeansCreated(force: Value, build: Builder, name: Value, year: Value, net: Net)
    ensures MovieAdd(force, build, name, year, net).result.success <==>
      exists request :: Built(build, net, request) && !Tracked(request) &&
        net.create.PostAnswer? && net.create.status == CreatedStatus
  {
    if net.lookup.LookupList? && net.lookup.candidates != [] {
      var built := build(net.lookup.candidates[0]);
      if built.Some? {
        var request := built.value;
        assert Built(build, net, request);
        if Tracked(request) {
          TrackedTitleNeverCreated(force, build, name, year, net, request);
        } else {
          UntrackedTitleCreatedOnce(force, build, name, year, net, request);
        }
      }
    }
  }

  /**
   * For a tracked, released title with a file the result depends on neither
   * POST reply: asking twice gives the same "already exists" answer, and no
   * search or create is sent.
   */
  lemma ExistingWithFileIsStable(force: Value, build: Builder, name: Value, year: Value, net: Net, other: Net,
                                 request: Record)
    requires Built(build, net, request) && Tracked(request)
    requires Truthy(Field(request, "isAvailable")) && Field(request, "movieFileId") != Num(0)
    requires other.lookup == net.lookup && other.queue == net.queue
    ensures MovieAdd(force, build, name, year, other) == MovieAdd(force, build, name, year, net)
    ensures !SendsSearch(MovieAdd(force, build, name, year, net).trace)
    ensures !SendsCreate(MovieAdd(force, build, name, year, net).trace)
  {
    assert Built(build, other, request);
    AddReachesDecide(force, build, name, year, net, request);
    AddReachesDecide(force, build, name, year, other, request);
    var id := Field(request, "id");
    if !Truthy(id) || CheckQueueStatus(net.queue) == NotQueued {
      DecideReachesExisting(force, name, year, net, request);
      DecideReachesExisting(force, name, year, other, request);
      var trace := MovieAdd(force, build, name, year, net).trace;
      assert trace == Preamble(name, year, request);
      assert forall i :: 0 <= i < |trace| ==> trace[i].LookupCall? || trace[i].QueueCall?;
    } else {
      QueuedTitleIsSkipped(force, build, name, year, net, request);
    }
  }

  class RadarrController {
    var radarrUrl: string
    var radarrApiKey: Value
    var qualityProfileId: Value
    var forceSearchOnExisting: Value
    var rootFolder: string

    /**
     * The constructor, given the values `config.get` returns. A missing API
     * key or a root folder that does not exist ends the process, so they are
     * preconditions; `folderExists` is the file system.
     */
    constructor (url: Value, apiKey: Value, qualityProfileId: Value, forceSearchOnExisting: Value,
                 rootFolder: Value, folderExists: string -> bool)
      requires url.Str? || !Truthy(url)
      requires rootFolder.Str?
      requires Truthy(apiKey)
      requires folderExists(Normalize(rootFolder.s))
      ensures radarrUrl == WithApiSuffix(if Truthy(url) then url.s else DefaultUrl)
      ensures EndsWith(radarrUrl, ApiSuffix)
      ensures radarrApiKey == apiKey
      ensures this.qualityProfileId == Or(qualityProfileId, Num(1))
      ensures this.forceSearchOnExisting == Or(forceSearchOnExisting, Bool(true))
      ensures Truthy(this.forceSearchOnExisting)
      ensures this.rootFolder == RootFolder(rootFolder.s)
      ensures !EndsWith(this.rootFolder, "/") && NoDoubleSeparator(this.rootFolder)
    {
      var configured := Or(url, Str(DefaultUrl)).s;
      assert configured == if Truthy(url) then url.s else DefaultUrl;
      radarrUrl := WithApiSuffix(configured);
      radarrApiKey := apiKey;
      this.qualityProfileId := Or(qualityProfileId, Num(1));
      this.forceSearchOnExisting := Or(forceSearchOnExisting, Bool(true));
      this.rootFolder := RootFolder(rootFolder.s);
    }

    function Policy(): MoviePolicy
      reads this
    {
      MoviePolicy(qualityProfileId, forceSearchOnExisting, rootFolder)
    }

    /** `add(movieName, movieYear)`: never throws, returns one response. */
    method Add(movieName: Value, movieYear: Value, net: Net) returns (result: Response, trace: seq<Call>)
      ensures Run(result, trace) == MovieAdd(forceSearchOnExisting, RequestBuilder(Policy()), movieName, movieYear, net)
    {
      trace := [LookupCall(movieName, movieYear)];
      if net.lookup.LookupFails? || net.lookup.LookupNull? {
        result := Unexpected();
        return;
      }
      if net.lookup.candidates == [] {
        result := NoResults(movieName, movieYear);
        return;
      }
      var build := RequestBuilder(Policy());
      var built := build(net.lookup.candidates[0]);
      if built.None? {
        result := Unexpected();
        return;
      }
      var request := built.value;
      var id := Field(request, "id");

      if Truthy(id) {
        trace := trace + [QueueCall(id)];
        var queueStatus := CheckQueueStatus(net.queue);
        if queueStatus != NotQueued {
          result := AboutMatch(false, QueueMessage(queueStatus), request, Undefined);
          return;
        }
      }

      if id != Undefined {
        var msg := NotDownloadedMessage;
        var hasFile := Field(request, "movieFileId") != Num(0);
        var isAvailable := Truthy(Field(request, "isAvailable"));
        if !isAvailable {
          msg := NotReleasedMessage;
        } else if hasFile {
          msg := HasFileMessage;
        } else if !hasFile && isAvailable && Truthy(forceSearchOnExisting) {
          trace := trace + [SearchCall([id])];
          match net.search {
            case PostFails =>
              result := Unexpected();
              return;
            case PostAnswer(status, _) =>
              if status == CreatedStatus {
                msg := SearchingMessage;
              } else {
                msg := SearchErrorMessage;
              }
          }
        }
        result := AboutMatch(false, msg, request, Undefined);
        return;
      }

      trace := trace + [CreateCall(request)];
      match net.create {
        case PostFails =>
          result := Unexpected();
        case PostAnswer(status, body) =>
          if status == CreatedStatus {
            result := AboutMatch(true, AddedMessage, request, Undefined);
          } else if body.Unparseable? {
            result := Unexpected();
          } else {
            result := AboutMatch(false, AddErrorMessage, request, body.json);
          }
      }
    }

    /** `bulkAdd`: one `add` after the other, one response per movie, in order. */
    method BulkAdd(movieList: seq<Record>, replies: nat -> Net) returns (results: seq<Response>, trace: seq<Call>)
      ensures |results| == |movieList|
      ensures forall i :: 0 <= i < |movieList| ==>
        results[i] == MovieAdd(forceSearchOnExisting, RequestBuilder(Policy()),
                               Field(movieList[i], "title"), Field(movieList[i], "year"), replies(i)).result
      ensures results == BulkResults(MovieAdder(forceSearchOnExisting, RequestBuilder(Policy())),
                                     "title", "year", movieList, replies, |movieList|)
      ensures trace == BulkTrace(MovieAdder(forceSearchOnExisting, RequestBuilder(Policy())),
                                 "title", "year", movieList, replies, |movieList|)
    {
      results := [];
      trace := [];
      ghost var add := MovieAdder(forceSearchOnExisting, RequestBuilder(Policy()));
      for i := 0 to |movieList|
        invariant results == BulkResults(add, "title", "year", movieList, replies, i)
        invariant trace == BulkTrace(add, "title", "year", movieList, replies, i)
      {
        var result, sent := Add(Field(movieList[i], "title"), Field(movieList[i], "year"), replies(i));
        assert Run(result, sent) == ItemRun(add, "title", "year", movieList, replies, i);
        results := results + [result];
        trace := trace + sent;
      }
      forall i | 0 <= i < |movieList|
        ensures results[i] == MovieAdd(forceSearchOnExisting, RequestBuilder(Policy()),
                                       Field(movieList[i], "title"), Field(movieList[i], "year"), replies(i)).result
      {
        BulkResultsAt(add, "title", "year", movieList, replies, |movieList|, i);
      }
    }
  }
}
