/**
 * The intermediate series controller of `modules/sonarr.js`: like the legacy
 * one, but the profile ids are read from the environment in
 * `buildRequestObject`.
 */
module ModulesSonarr {
  import opened Json
  import opened Reconcile
  import Series

  const ShowsFolder := "/mnt/TV_Shows/"

  /** The keys `buildRequestObject` sets over the catalog match. */
  const PolicyKeys := {"languageProfileId", "qualityProfileId", "path", "seasonFolder", "monitored",
                       "minimumAvailability", "addOptions"}

  /** Monitor missing episodes and search for them, not for cutoff upgrades. */
  const AddOptions := Obj(map["monitor" := Str("missing"),
                              "searchForCutoffUnmetEpisodes" := Bool(false),
                              "searchForMissingEpisodes" := Bool(true)])

  /** The fields `buildRequestObject` sets, for the match's folder text `folder`. */
  function PolicyFields(env: Env, folder: string): (r: Record)
    ensures r.Keys == PolicyKeys
    ensures r["languageProfileId"] == EnvValue(env, "SONARR_LANGUAGE_PROFILE_ID")
    ensures r["qualityProfileId"] == EnvValue(env, "SONARR_QUALITY_PROFILE_ID")
    ensures r["seasonFolder"] == Bool(true) && r["monitored"] == Bool(true)
    ensures r["minimumAvailability"] == Str("released") && r["addOptions"] == AddOptions
    ensures r["path"] == Str(ShowsFolder + folder)
  {
    map["languageProfileId" := EnvValue(env, "SONARR_LANGUAGE_PROFILE_ID"),
        "qualityProfileId" := EnvValue(env, "SONARR_QUALITY_PROFILE_ID"),
        "path" := Str(ShowsFolder + folder),
        "seasonFolder" := Bool(true),
        "monitored" := Bool(true),
        "minimumAvailability" := Str("released"),
        "addOptions" := AddOptions]
  }

  /**
   * `buildRequestObject(lookupResult)`: the profile ids are the environment's
   * text, or `undefined` when the variable is not set.
   */
  function BuildRequest(env: Env, candidate: Record): (r: Record)
    ensures r.Keys == candidate.Keys + PolicyKeys
    ensures forall k :: k in candidate && k !in PolicyKeys ==> r[k] == candidate[k]
    ensures r["languageProfileId"] == EnvValue(env, "SONARR_LANGUAGE_PROFILE_ID")
    ensures r["qualityProfileId"] == EnvValue(env, "SONARR_QUALITY_PROFILE_ID")
    ensures r["seasonFolder"] == Bool(true) && r["monitored"] == Bool(true)
    ensures r["minimumAvailability"] == Str("released") && r["addOptions"] == AddOptions
    ensures r["path"].Str? && |r["path"].s| >= |ShowsFolder| && r["path"].s[..|ShowsFolder|] == ShowsFolder
    ensures r["path"].s[|ShowsFolder|..] == Display(Field(candidate, "folder"))
  {
    var folder := Display(Field(candidate, "folder"));
    var path := ShowsFolder + folder;
    assert path[..|ShowsFolder|] == ShowsFolder && path[|ShowsFolder|..] == folder;
    candidate + PolicyFields(env, folder)
  }

  /** `add(seriesName, seriesYear)`: the shared series decision over `buildRequestObject`. */
  function Add(env: Env, seriesName: Value, seriesYear: Value, net: Net): (run: Run)
    ensures run.result.message in Series.Messages
    ensures !SendsQueueCheck(run.trace) && !SendsSearch(run.trace)
    ensures NoCandidates(net.lookup) ==> run == Run(NoResults(seriesName, seriesYear), [LookupCall(seriesName, seriesYear)])
    ensures run.trace == [LookupCall(seriesName, seriesYear)] ||
      (&& net.lookup.LookupList? && net.lookup.candidates != []
       && !Tracked(BuildRequest(env, net.lookup.candidates[0]))
       && run.trace == [LookupCall(seriesName, seriesYear), CreateCall(BuildRequest(env, net.lookup.candidates[0]))])
  {
    Series.SeriesAdd(c => Some(BuildRequest(env, c)), seriesName, seriesYear, net)
  }

  /**
   * Without the profile variables, the request is still sent, with both
   * profile ids `undefined` (which `JSON.stringify` then omits).
   */
  lemma UnsetProfilesStillSent(env: Env, seriesName: Value, seriesYear: Value, net: Net, first: Record)
    requires "SONARR_LANGUAGE_PROFILE_ID" !in env && "SONARR_QUALITY_PROFILE_ID" !in env
    requires net.lookup == LookupList([first]) && !Tracked(first)
    ensures Add(env, seriesName, seriesYear, net).trace ==
      [LookupCall(seriesName, seriesYear), CreateCall(BuildRequest(env, first))]
    ensures BuildRequest(env, first)["languageProfileId"] == Undefined
    ensures BuildRequest(env, first)["qualityProfileId"] == Undefined
  {
    assert Field(BuildRequest(env, first), "id") == Field(first, "id");
    Series.UntrackedTitleCreatedOnce(c => Some(BuildRequest(env, c)), seriesName, seriesYear, net, BuildRequest(env, first));
  }

  /** `bulkAdd`: one result per item in input order (unresolved promises modelled by their values). */
  function BulkAdd(env: Env, seriesList: seq<Record>, replies: nat -> Net): (results: seq<Response>)
    ensures |results| == |seriesList|
    ensures forall i :: 0 <= i < |seriesList| ==>
      results[i] == Add(env, Field(seriesList[i], "seriesName"), Field(seriesList[i], "seriesYear"), replies(i)).result
  {
    Series.BulkAdd((name, year, net) => Add(env, name, year, net), seriesList, replies)
  }
}
