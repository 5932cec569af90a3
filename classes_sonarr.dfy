/**
 * The legacy series controller of `classes/sonarr.js`: a stateless singleton
 * whose request is written inline in `add`, with fixed profile ids and a
 * path under `/mnt/TV_Shows/`.
 */
module ClassesSonarr {
  import opened Json
  import opened Reconcile
  import Series

  const ShowsFolder := "/mnt/TV_Shows/"

  /** The keys the inline request sets over the catalog match. */
  const PolicyKeys := {"languageProfileId", "qualityProfileId", "path", "seasonFolder", "monitored",
                       "minimumAvailability", "addOptions"}

  /** Monitor missing episodes and search for them, not for cutoff upgrades. */
  const AddOptions := Obj(map["monitor" := Str("missing"),
                              "searchForCutoffUnmetEpisodes" := Bool(false),
                              "searchForMissingEpisodes" := Bool(true)])

  /**
   * The request `add` builds from `lookup[0]`: the match with the fixed
   * fields over it. The folder is inserted by a template literal, so this
   * never throws: a missing folder becomes the text `undefined`.
   */
  function Request(candidate: Record): (r: Record)
    ensures r.Keys == candidate.Keys + PolicyKeys
    ensures forall k :: k in candidate && k !in PolicyKeys ==> r[k] == candidate[k]
    ensures r["languageProfileId"] == Num(1) && r["qualityProfileId"] == Num(3)
    ensures r["seasonFolder"] == Bool(true) && r["monitored"] == Bool(true)
    ensures r["minimumAvailability"] == Str("released") && r["addOptions"] == AddOptions
    ensures r["path"].Str? && |r["path"].s| >= |ShowsFolder| && r["path"].s[..|ShowsFolder|] == ShowsFolder
    ensures r["path"].s[|ShowsFolder|..] == Display(Field(candidate, "folder"))
  {
    candidate + map["languageProfileId" := Num(1),
                    "qualityProfileId" := Num(3),
                    "path" := Str(ShowsFolder + Display(Field(candidate, "folder"))),
                    "seasonFolder" := Bool(true),
                    "monitored" := Bool(true),
                    "minimumAvailability" := Str("released"),
                    "addOptions" := AddOptions]
  }

  /** `add(seriesName, seriesYear)`: the shared series decision over the inline request. */
  function Add(seriesName: Value, seriesYear: Value, net: Net): (run: Run)
    ensures run.result.message in Series.Messages
    ensures !SendsQueueCheck(run.trace) && !SendsSearch(run.trace)
    ensures NoCandidates(net.lookup) ==> run == Run(NoResults(seriesName, seriesYear), [LookupCall(seriesName, seriesYear)])
    ensures run.trace == [LookupCall(seriesName, seriesYear)] ||
      (&& net.lookup.LookupList? && net.lookup.candidates != []
       && !Tracked(Request(net.lookup.candidates[0]))
       && run.trace == [LookupCall(seriesName, seriesYear), CreateCall(Request(net.lookup.candidates[0]))])
  {
    Series.SeriesAdd(c => Some(Request(c)), seriesName, seriesYear, net)
  }

  /**
   * Building never fails here, so after a successful lookup the title is
   * either tracked or sent for creation, never dropped by an error.
   */
  lemma MatchIsCreatedOrTracked(seriesName: Value, seriesYear: Value, net: Net, first: Record, rest: seq<Record>)
    requires net.lookup == LookupList([first] + rest)
    ensures Tracked(first) ==>
      Add(seriesName, seriesYear, net) ==
        Run(AboutMatch(false, Series.ExistsMessage, Request(first), Undefined), [LookupCall(seriesName, seriesYear)])
    ensures !Tracked(first) ==>
      Add(seriesName, seriesYear, net).trace == [LookupCall(seriesName, seriesYear), CreateCall(Request(first))]
  {
    assert ([first] + rest)[0] == first;
    assert Field(Request(first), "id") == Field(first, "id");
    if Tracked(first) {
      Series.TrackedTitleIsSkipped(c => Some(Request(c)), seriesName, seriesYear, net, Request(first));
    } else {
      Series.UntrackedTitleCreatedOnce(c => Some(Request(c)), seriesName, seriesYear, net, Request(first));
    }
  }

  /** `bulkAdd`: one result per item in input order (unresolved promises modelled by their values). */
  function BulkAdd(seriesList: seq<Record>, replies: nat -> Net): (results: seq<Response>)
    ensures |results| == |seriesList|
    ensures forall i :: 0 <= i < |seriesList| ==>
      results[i] == Add(Field(seriesList[i], "seriesName"), Field(seriesList[i], "seriesYear"), replies(i)).result
  {
    Series.BulkAdd((name, year, net) => Add(name, year, net), seriesList, replies)
  }
}
