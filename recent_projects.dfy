/**
 * The recent-projects list kept in the settings: when a run's summary
 * arrives, its project path is put at the front unless it is already listed,
 * and the list is cut to ten entries.
 */
module RecentProjects {

  const MaxRecent: nat := 10

  function Min(a: nat, b: nat): nat { if a <= b then a else b }

  /** The recent list after a summary for `path` (an empty path changes nothing). */
  function Remember(recent: seq<string>, path: string): (r: seq<string>)
    ensures path != "" ==> path in r
    ensures path == "" || path in recent ==> r == recent
    ensures path != "" && path !in recent ==>
      |r| == Min(|recent| + 1, MaxRecent) && r[0] == path && r[1..] == recent[..|r| - 1]
  {
    if path != "" && path !in recent then
      var r := ([path] + recent)[..Min(|recent| + 1, MaxRecent)];
      assert r[0] == path;
      r
    else recent
  }

  predicate NoDuplicates(s: seq<string>) {
    forall i, j | 0 <= i < j < |s| :: s[i] != s[j]
  }

  /** Remembering the same path twice changes nothing the second time. */
  lemma RememberIdempotent(recent: seq<string>, path: string)
    ensures Remember(Remember(recent, path), path) == Remember(recent, path)
  {
  }

  /** A list of at most ten distinct paths stays a list of at most ten distinct paths. */
  lemma RememberKeepsBound(recent: seq<string>, path: string)
    requires |recent| <= MaxRecent && NoDuplicates(recent)
    ensures |Remember(recent, path)| <= MaxRecent
    ensures NoDuplicates(Remember(recent, path))
  {
    var r := Remember(recent, path);
    if path != "" && path !in recent {
      forall i, j | 0 <= i < j < |r| ensures r[i] != r[j] {
        if i == 0 {
          assert r[j] == recent[j - 1];
        } else {
          assert r[i] == recent[i - 1] && r[j] == recent[j - 1];
        }
      }
    }
  }
}
