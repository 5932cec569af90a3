/**
 * The part of Node's `path.normalize` and `path.join` the controllers rely
 * on: separators are `/`, a run of separators collapses to one, and `join`
 * puts one separator between two non-empty parts.
 */
module Paths {
  import opened Strings

  predicate NoDoubleSeparator(p: string) {
    forall i :: 0 <= i < |p| - 1 ==> !(p[i] == '/' && p[i + 1] == '/')
  }

  /** `path.normalize`: every run of `/` becomes a single `/`. */
  function Normalize(p: string): (r: string)
    ensures NoDoubleSeparator(r)
    ensures |r| <= |p|
    ensures p != [] ==> r != [] && r[0] == p[0] && r[|r| - 1] == p[|p| - 1]
  {
    if |p| < 2 then p
    else if p[0] == '/' && p[1] == '/' then Normalize(p[1..])
    else [p[0]] + Normalize(p[1..])
  }

  /** A path that has no run of separators is already normal. */
  lemma {:induction false} NormalizeKeepsNormal(p: string)
    requires NoDoubleSeparator(p)
    ensures Normalize(p) == p
  {
    if |p| >= 2 {
      NormalizeKeepsNormal(p[1..]);
    }
  }

  lemma NormalizeIdempotent(p: string)
    ensures Normalize(Normalize(p)) == Normalize(p)
  {
    NormalizeKeepsNormal(Normalize(p));
  }

  /** `path.join(a, b)` before its normalisation. */
  function Join(a: string, b: string): string {
    if a == "" then b else if b == "" then a else a + "/" + b
  }

  /**
   * Normalising a normal prefix followed by text that does not start a run
   * of separators with it normalises only the text.
   */
  lemma {:induction false} NormalizeAfterNormal(root: string, t: string)
    requires root != "" && t != "" && NoDoubleSeparator(root)
    requires !(root[|root| - 1] == '/' && t[0] == '/')
    ensures Normalize(root + t) == root + Normalize(t)
  {
    var s := root + t;
    assert s[0] == root[0];
    if |root| == 1 {
      assert s[1..] == t;
      assert Normalize(s) == [s[0]] + Normalize(t);
    } else {
      assert s[1..] == root[1..] + t;
      assert Normalize(s) == [s[0]] + Normalize(s[1..]);
      var tail := root[1..];
      assert tail[|tail| - 1] == root[|root| - 1];
      assert forall i :: 0 <= i < |tail| ==> tail[i] == root[i + 1];
      NormalizeAfterNormal(tail, t);
      var n := Normalize(t);
      assert Normalize(s) == [root[0]] + (tail + n);
      assert [root[0]] + (tail + n) == ([root[0]] + tail) + n;
      assert [root[0]] + tail == root;
    }
  }

  /**
   * Joining a normal root folder that does not end in a separator with a
   * non-empty folder keeps the root folder, then a separator, in front.
   */
  lemma JoinUnderRoot(root: string, folder: string)
    requires root != "" && folder != ""
    requires NoDoubleSeparator(root) && !EndsWith(root, "/")
    ensures Join(root, folder) == root + "/" + folder
    ensures Normalize(Join(root, folder)) == root + Normalize("/" + folder)
    ensures |Normalize(Join(root, folder))| > |root|
    ensures Normalize(Join(root, folder))[..|root| + 1] == root + "/"
  {
    assert root + "/" + folder == root + ("/" + folder);
    NormalizeAfterNormal(root, "/" + folder);
    var n := Normalize("/" + folder);
    assert n[0] == '/';
    assert (root + n)[..|root| + 1] == root + "/";
  }

  /**
   * `path.normalize(path.join(root, path.normalize(folder)))`, where the
   * controllers place a title. Under a normal root without a trailing
   * separator, a non-empty folder lands inside the root.
   */
  function Place(root: string, folder: string): (r: string)
    ensures NoDoubleSeparator(r)
    ensures root != "" && NoDoubleSeparator(root) && !EndsWith(root, "/") && folder != "" ==>
              |r| > |root| && r[..|root| + 1] == root + "/"
  {
    if root != "" && NoDoubleSeparator(root) && !EndsWith(root, "/") && folder != "" then
      JoinUnderRoot(root, Normalize(folder));
      Normalize(Join(root, Normalize(folder)))
    else
      Normalize(Join(root, Normalize(folder)))
  }

  /** A path ends in a separator exactly when its last character is one. */
  lemma EndsWithSeparator(p: string)
    ensures EndsWith(p, "/") <==> |p| > 0 && p[|p| - 1] == '/'
  {
    if |p| > 0 {
      assert p[|p| - 1..] == [p[|p| - 1]];
    }
  }

  /** `p.replace(/\/$/, '')`: at most one trailing separator is removed. */
  function StripTrailingSeparator(p: string): (r: string)
    ensures EndsWith(p, "/") ==> r + "/" == p
    ensures !EndsWith(p, "/") ==> r == p
  {
    EndsWithSeparator(p);
    if |p| > 0 && p[|p| - 1] == '/' then
      assert p[..|p| - 1] + "/" == p;
      p[..|p| - 1]
    else p
  }

  /**
   * The root folder the controllers keep, normalised and then stripped of one
   * trailing separator, never ends in a separator.
   */
  function RootFolder(configured: string): (r: string)
    ensures !EndsWith(r, "/")
    ensures NoDoubleSeparator(r)
  {
    var n := Normalize(configured);
    var r := StripTrailingSeparator(n);
    EndsWithSeparator(n);
    EndsWithSeparator(r);
    assert |r| <= |n| && forall i :: 0 <= i < |r| ==> r[i] == n[i];
    assert |r| > 0 && r != n ==> r[|r| - 1] == n[|n| - 2];
    r
  }
}
