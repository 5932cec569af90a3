/**
 * `cleanObject` of `modules/utils.js`: it trims a catalog record in place
 * before it is shown, marking a record the library already holds with
 * `inLibrary: true` instead of its `id`, and deleting a fixed list of keys.
 */
module Utils {
  import opened Json

  /** `propertiesToRemove`, in source order. */
  const PropertiesToRemove: seq<string> := [
    "originalTitle", "originalLanguage", "alternateTitles", "secondaryYearSourceId",
    "sortTitle", "sizeOnDisk", "images", "website", "remotePoster", "hasFile",
    "qualityProfileId", "monitored", "minimumAvailability", "folderName", "path",
    "folder", "cleanTitle", "titleSlug", "tags", "added", "popularity", "studio",
    "movieFile", "collection", "network", "languageProfileId", "seasonFolder",
    "useSceneNumbering", "tvdbId", "tvRageId", "tvMazeId", "firstAired", "seriesType",
    "statistics", "airTime", "certification", "seasons", "ratings", "inCinemas"]

  /** `m` without the keys listed in `keys`. */
  function Without(m: Record, keys: seq<string>): (r: Record)
    ensures r.Keys == m.Keys - set k | k in keys
    ensures forall k :: k in r ==> r[k] == m[k]
  {
    m - set k | k in keys
  }

  /** Removing one more key from the list removes it from the result. */
  lemma WithoutSnoc(m: Record, keys: seq<string>, k: string)
    ensures Without(m, keys + [k]) == Without(m, keys) - {k}
  {
    assert (set j | j in keys + [k]) == (set j | j in keys) + {k};
  }

  /** Neither `id` nor `inLibrary` is on the removal list. */
  lemma MarkerKeysNotRemoved()
    ensures "id" !in PropertiesToRemove && "inLibrary" !in PropertiesToRemove
  {
    assert forall i :: 0 <= i < |PropertiesToRemove| ==> |PropertiesToRemove[i]| > 2;
    assert forall i :: 0 <= i < |PropertiesToRemove| ==> PropertiesToRemove[i] != "inLibrary";
  }

  /** `m` with `id` replaced by the `inLibrary` marker, then without `keys`. */
  function Strip(m: Record, keys: seq<string>): (r: Record)
    requires "id" !in keys && "inLibrary" !in keys
    ensures "id" !in r
    ensures forall k :: k in keys ==> k !in r
    ensures "id" in m ==> "inLibrary" in r && r["inLibrary"] == Bool(true)
    ensures "id" !in m ==> r.Keys == m.Keys - set k | k in keys
    ensures forall k :: k in m && k != "id" && k != "inLibrary" && k !in keys ==> k in r && r[k] == m[k]
    ensures forall k :: k in r ==> k == "inLibrary" || (k in m && r[k] == m[k])
    ensures "id" !in m ==> ("inLibrary" in r <==> "inLibrary" in m)
  {
    var renamed := if "id" in m then m["inLibrary" := Bool(true)] - {"id"} else m;
    Without(renamed, keys)
  }

  /** The record `cleanObject` leaves behind. */
  function Cleaned(m: Record): (r: Record)
    ensures "id" !in r
    ensures forall k :: k in PropertiesToRemove ==> k !in r
    ensures "id" in m ==> "inLibrary" in r && r["inLibrary"] == Bool(true)
    ensures "id" !in m ==> r.Keys == m.Keys - set k | k in PropertiesToRemove
    ensures forall k :: k in m && k != "id" && k != "inLibrary" && k !in PropertiesToRemove ==> k in r && r[k] == m[k]
    ensures forall k :: k in r ==> k == "inLibrary" || (k in m && r[k] == m[k])
    ensures "id" !in m ==> ("inLibrary" in r <==> "inLibrary" in m)
  {
    MarkerKeysNotRemoved();
    Strip(m, PropertiesToRemove)
  }

  /** Cleaning a cleaned record changes nothing. */
  lemma CleanedIdempotent(m: Record)
    ensures Cleaned(Cleaned(m)) == Cleaned(m)
  {
    MarkerKeysNotRemoved();
    StripIdempotent(m, PropertiesToRemove);
  }

  /** Stripping a stripped record changes nothing. */
  lemma StripIdempotent(m: Record, keys: seq<string>)
    requires "id" !in keys && "inLibrary" !in keys
    ensures Strip(Strip(m, keys), keys) == Strip(m, keys)
  {
    var c := Strip(m, keys);
    assert Strip(c, keys).Keys == c.Keys;
  }

  /** A JavaScript object that functions update in place. */
  class Dict {
    var fields: Record

    constructor (fields: Record)
      ensures this.fields == fields
    {
      this.fields := fields;
    }
  }

  /** The `delete obj[prop]` loop over `keys`. */
  method DeleteAll(obj: Dict, keys: seq<string>)
    modifies obj
    ensures obj.fields == Without(old(obj.fields), keys)
  {
    for i := 0 to |keys|
      invariant obj.fields == Without(old(obj.fields), keys[..i])
    {
      WithoutSnoc(old(obj.fields), keys[..i], keys[i]);
      assert keys[..i + 1] == keys[..i] + [keys[i]];
      obj.fields := obj.fields - {keys[i]};
    }
    assert keys[..|keys|] == keys;
  }

  /** `cleanObject(obj)`: edits `obj` in place and returns that same object. */
  method CleanObject(obj: Dict) returns (r: Dict)
    modifies obj
    ensures r == obj
    ensures obj.fields == Cleaned(old(obj.fields))
  {
    if "id" in obj.fields {
      obj.fields := obj.fields["inLibrary" := Bool(true)];
      obj.fields := obj.fields - {"id"};
    }
    DeleteAll(obj, PropertiesToRemove);
    r := obj;
  }
}
