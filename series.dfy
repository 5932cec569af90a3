/**
 * The series `add` decision, which the three series controllers share: they
 * differ only in how the registration request is built from the catalog
 * match. Series are never queue-checked and never force-searched.
 */
module Series {
  import opened Json
  import opened Reconcile

  const ExistsMessage := "Series already exists"
  const AddedMessage := "Series added"
  const AddErrorMessage := "Error adding series"

  /** Every message a series `add` can report. */
  const Messages := {NoResultsMessage, ExistsMessage, AddedMessage, AddErrorMessage, UnexpectedMessage}

  /**
   * `add(seriesName, seriesYear)`: the lookup, an early return for no match,
   * one for a tracked match, otherwise one create request.
   */
  function SeriesAdd(build: Builder, name: Value, year: Value, net: Net): (run: Run)
    ensures run.result.message in Messages
    ensures !SendsQueueCheck(run.trace) && !SendsSearch(run.trace)
    ensures run.trace == [LookupCall(name, year)] ||
            exists request :: Built(build, net, request) && !Tracked(request) &&
                              run.trace == [LookupCall(name, year), CreateCall(request)]
  {
    var sent := [LookupCall(name, year)];
    match net.lookup
    case LookupFails => Run(Unexpected(), sent)
    case LookupNull => Run(NoResults(name, year), sent)
    case LookupList(candidates) =>
      if candidates == [] then Run(NoResults(name, year), sent)
      else
        match build(candidates[0])
        case None => Run(Unexpected(), sent)
        case Some(request) =>
          if Tracked(request) then Run(AboutMatch(false, ExistsMessage, request, Undefined), sent)
          else
            var sent := sent + [CreateCall(request)];
            match net.create
            case PostFails => Run(Unexpected(), sent)
            case PostAnswer(status, body) =>
              if status == CreatedStatus then Run(AboutMatch(true, AddedMessage, request, Undefined), sent)
              else
                match body
                case Unparseable => Run(Unexpected(), sent)
                case Parsed(errors) => Run(AboutMatch(false, AddErrorMessage, request, errors), sent)
  }

  /** An empty or `null` lookup reports "No results found" for the query; no POST is sent. */
  lemma NoResultsSendsOnlyLookup(build: Builder, name: Value, year: Value, net: Net)
    requires NoCandidates(net.lookup)
    ensures SeriesAdd(build, name, year, net) == Run(NoResults(name, year), [LookupCall(name, year)])
  {
  }

  /**
   * A failed lookup and a throwing builder end in the catch-all response after
   * the lookup alone; a rejected create is never a success (its full response
   * is stated by `UntrackedTitleCreatedOnce`).
   */
  lemma FailuresAreUnexpected(build: Builder, name: Value, year: Value, net: Net)
    ensures net.lookup.LookupFails? ==> SeriesAdd(build, name, year, net) == Run(Unexpected(), [LookupCall(name, year)])
    ensures net.lookup.LookupList? && net.lookup.candidates != [] && build(net.lookup.candidates[0]).None? ==>
      SeriesAdd(build, name, year, net) == Run(Unexpected(), [LookupCall(name, year)])
    ensures net.create.PostFails? ==> SeriesAdd(build, name, year, net).result.success == false
  {
  }

  /** Only `lookup[0]` is used. */
  lemma OnlyFirstCandidateMatters(build: Builder, name: Value, year: Value, net: Net, first: Record, rest: seq<Record>)
    ensures SeriesAdd(build, name, year, net.(lookup := LookupList([first] + rest))) ==
            SeriesAdd(build, name, year, net.(lookup := LookupList([first])))
  {
    assert ([first] + rest)[0] == first;
  }

  /** A tracked match reports "Series already exists" with the match's title, year and ids; nothing is sent. */
  lemma TrackedTitleIsSkipped(build: Builder, name: Value, year: Value, net: Net, request: Record)
    requires Built(build, net, request) && Tracked(request)
    ensures SeriesAdd(build, name, year, net) ==
      Run(AboutMatch(false, ExistsMessage, request, Undefined), [LookupCall(name, year)])
  {
  }

  /** An untracked match: exactly one create request; 201 is success, anything else reports the body. */
  lemma UntrackedTitleCreatedOnce(build: Builder, name: Value, year: Value, net: Net, request: Record)
    requires Built(build, net, request) && !Tracked(request)
    ensures SeriesAdd(build, name, year, net).trace == [LookupCall(name, year), CreateCall(request)]
    ensures net.create.PostAnswer? && net.create.status == CreatedStatus ==>
      SeriesAdd(build, name, year, net).result == AboutMatch(true, AddedMessage, request, Undefined)
    ensures net.create.PostAnswer? && net.create.status != CreatedStatus && net.create.body.Parsed? ==>
      SeriesAdd(build, name, year, net).result == AboutMatch(false, AddErrorMessage, request, net.create.body.json)
    ensures net.create.PostFails? || (net.create.PostAnswer? && net.create.status != CreatedStatus && net.create.body.Unparseable?) ==>
      SeriesAdd(build, name, year, net).result == Unexpected()
  {
  }

  /** `success` is reported exactly when an untracked first match was created with status 201. */
  lemma SuccessMeansCreated(build: Builder, name: Value, year: Value, net: Net)
    ensures SeriesAdd(build, name, year, net).result.success <==>
      exists request :: Built(build, net, request) && !Tracked(request) &&
        net.create.PostAnswer? && net.create.status == CreatedStatus
  {
    if net.lookup.LookupList? && net.lookup.candidates != [] {
      var built := build(net.lookup.candidates[0]);
      if built.Some? {
        assert Built(build, net, built.value);
      }
    }
  }

  /**
   * `bulkAdd`: `seriesList.map(async …)`, one result per item in input
   * order, each `add(item.seriesName, item.seriesYear)`; `add` is the
   * controller's. The promises the source returns unresolved are modelled by
   * their values.
   */
  function BulkAdd(add: Adder, items: seq<Record>, replies: nat -> Net): (results: seq<Response>)
    ensures |results| == |items|
    ensures forall i :: 0 <= i < |items| ==>
      results[i] == add(Field(items[i], "seriesName"), Field(items[i], "seriesYear"), replies(i)).result
  {
    BulkResultsEach(add, "seriesName", "seriesYear", items, replies, |items|);
    BulkResults(add, "seriesName", "seriesYear", items, replies, |items|)
  }
}
