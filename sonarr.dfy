/**
 * The current series controller (`SonarrController`): construction from the
 * configuration, `buildRequestObject`, and `add`/`bulkAdd` as instances of
 * the shared series decision.
 */
module Sonarr {
  import opened Strings
  import opened Json
  import opened Paths
  import opened Reconcile
  import Series

  const DefaultUrl := "http://localhost:8989"

  /** The controller fields `buildRequestObject` depends on. */
  datatype SeriesPolicy = SeriesPolicy(languageProfileId: Value, qualityProfileId: Value, rootFolder: string)

  /** The keys `buildRequestObject` sets over the catalog match. */
  const PolicyKeys := {"languageProfileId", "qualityProfileId", "path", "seasonFolder", "monitored",
                       "minimumAvailability", "addOptions"}

  /** Monitor missing episodes and search for them, not for cutoff upgrades. */
  const AddOptions := Obj(map["monitor" := Str("missing"),
                              "searchForCutoffUnmetEpisodes" := Bool(false),
                              "searchForMissingEpisodes" := Bool(true)])

  function PolicyFields(p: SeriesPolicy, folder: string): (r: Record)
    ensures r.Keys == PolicyKeys
    ensures r["languageProfileId"] == p.languageProfileId && r["qualityProfileId"] == p.qualityProfileId
    ensures r["seasonFolder"] == Bool(true) && r["monitored"] == Bool(true)
    ensures r["addOptions"] == AddOptions && r["minimumAvailability"] == Str("released")
    ensures r["path"] == Str(Place(p.rootFolder, folder))
  {
    map["languageProfileId" := p.languageProfileId,
        "qualityProfileId" := p.qualityProfileId,
        "path" := Str(Place(p.rootFolder, folder)),
        "seasonFolder" := Bool(true),
        "monitored" := Bool(true),
        "minimumAvailability" := Str("released"),
        "addOptions" := AddOptions]
  }

  /**
   * `buildRequestObject`: every field of the match, with the policy keys set
   * over it; `path.normalize` throws (`None`) when `folder` is not a string.
   */
  function BuildRequest(p: SeriesPolicy, candidate: Record): (r: Option<Record>)
    ensures r.Some? <==> Field(candidate, "folder").Str?
    ensures r.Some? ==> r.value.Keys == candidate.Keys + PolicyKeys
    ensures r.Some? ==> forall k :: k in candidate && k !in PolicyKeys ==> r.value[k] == candidate[k]
    ensures r.Some? ==> r.value["languageProfileId"] == p.languageProfileId
    ensures r.Some? ==> r.value["qualityProfileId"] == p.qualityProfileId
    ensures r.Some? ==> r.value["seasonFolder"] == Bool(true) && r.value["monitored"] == Bool(true)
    ensures r.Some? ==> r.value["addOptions"] == AddOptions && r.value["minimumAvailability"] == Str("released")
    ensures r.Some? ==> r.value["path"] == Str(Place(p.rootFolder, Field(candidate, "folder").s))
  {
    match Field(candidate, "folder")
    case Str(folder) => Some(candidate + PolicyFields(p, folder))
    case _ => None
  }

  /** `add` of a controller whose fields are `p`; a `null` lookup body throws in `lookup`. */
  function ControllerAdd(p: SeriesPolicy, seriesName: Value, seriesYear: Value, net: Net): Run {
    if net.lookup.LookupNull? then Run(Unexpected(), [LookupCall(seriesName, seriesYear)])
    else Series.SeriesAdd(c => BuildRequest(p, c), seriesName, seriesYear, net)
  }

  class SonarrController {
    var sonarrUrl: string
    var sonarrApiKey: Value
    var qualityProfileId: Value
    var languageProfileId: Value
    var rootFolder: string

    /**
     * The constructor, given the values `config.get` returns. A missing API
     * key or a root folder that does not exist ends the process, so they are
     * preconditions; `folderExists` is the file system.
     */
    constructor (url: Value, apiKey: Value, qualityProfileId: Value, rootFolder: Value, folderExists: string -> bool)
      requires url.Str? || !Truthy(url)
      requires rootFolder.Str?
      requires Truthy(apiKey)
      requires folderExists(Normalize(rootFolder.s))
      ensures sonarrUrl == WithApiSuffix(if Truthy(url) then url.s else DefaultUrl)
      ensures EndsWith(sonarrUrl, ApiSuffix)
      ensures sonarrApiKey == apiKey
      ensures this.qualityProfileId == Or(qualityProfileId, Num(1))
      ensures languageProfileId == Num(1)
      ensures this.rootFolder == RootFolder(rootFolder.s)
      ensures !EndsWith(this.rootFolder, "/") && NoDoubleSeparator(this.rootFolder)
    {
      var configured := Or(url, Str(DefaultUrl)).s;
      assert configured == if Truthy(url) then url.s else DefaultUrl;
      sonarrUrl := WithApiSuffix(configured);
      sonarrApiKey := apiKey;
      this.qualityProfileId := Or(qualityProfileId, Num(1));
      languageProfileId := Num(1);
      this.rootFolder := RootFolder(rootFolder.s);
    }

    function Policy(): SeriesPolicy
      reads this
    {
      SeriesPolicy(languageProfileId, qualityProfileId, rootFolder)
    }

    /**
     * `add(seriesName, seriesYear)`: never throws; a create request, when one
     * is sent, carries the request built from the first match, which is not
     * tracked yet. `lookup` logs `data.length` before it returns, so a `null`
     * body throws there and ends in the catch-all response.
     */
    function Add(seriesName: Value, seriesYear: Value, net: Net): (run: Run)
      reads this
      ensures run.result.message in Series.Messages
      ensures !SendsQueueCheck(run.trace) && !SendsSearch(run.trace)
      ensures net.lookup == LookupList([]) ==>
        run == Run(NoResults(seriesName, seriesYear), [LookupCall(seriesName, seriesYear)])
      ensures net.lookup.LookupNull? || net.lookup.LookupFails? ==>
        run == Run(Unexpected(), [LookupCall(seriesName, seriesYear)])
      ensures run.trace == [LookupCall(seriesName, seriesYear)] ||
        (&& net.lookup.LookupList? && net.lookup.candidates != []
         && BuildRequest(Policy(), net.lookup.candidates[0]).Some?
         && !Tracked(BuildRequest(Policy(), net.lookup.candidates[0]).value)
         && run.trace == [LookupCall(seriesName, seriesYear),
                          CreateCall(BuildRequest(Policy(), net.lookup.candidates[0]).value)])
    {
      ControllerAdd(Policy(), seriesName, seriesYear, net)
    }

    /** `bulkAdd`: one response per item, in input order. */
    function BulkAdd(seriesList: seq<Record>, replies: nat -> Net): (results: seq<Response>)
      reads this
      ensures |results| == |seriesList|
      ensures forall i :: 0 <= i < |seriesList| ==>
        results[i] == Add(Field(seriesList[i], "seriesName"), Field(seriesList[i], "seriesYear"), replies(i)).result
    {
      var p := Policy();
      Series.BulkAdd((name, year, net) => ControllerAdd(p, name, year, net), seriesList, replies)
    }
  }
}
