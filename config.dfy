/** src/lib/config.ts: the base path of the deployment and the two path
    normalisations used for navigation. The build environment is a
    parameter. */
module Config {
  import opened Text

  const BASE_PATH := "/gmml-inventory"

  /** getBasePath: the GitHub Pages prefix in production, none otherwise.
      A prefix starts with '/' and does not end with one, so appending a
      router path never doubles the slash. */
  function BasePath(nodeEnv: string): (r: string)
    ensures r != "" <==> nodeEnv == "production"
    ensures r == "" || (|r| > 1 && r[0] == '/' && r[|r| - 1] != '/')
  {
    if nodeEnv == "production" then BASE_PATH else ""
  }

  /** getRouterPath: a leading '/' is added when the path has none. */
  function RouterPath(path: string): (r: string)
    ensures |r| > 0 && r[0] == '/'
    ensures StartsWith(path, "/") ==> r == path
    ensures !StartsWith(path, "/") ==> r == "/" + path
  {
    if StartsWith(path, "/") then path else "/" + path
  }

  /** Normalising twice is normalising once, and a path that is already
      absolute keeps its length while any other grows by exactly one. */
  lemma RouterPathIdempotent(path: string)
    ensures RouterPath(RouterPath(path)) == RouterPath(path)
    ensures |RouterPath(path)| == if |path| > 0 && path[0] == '/' then |path| else |path| + 1
    ensures RouterPath(path)[|RouterPath(path)| - |path|..] == path
  {
    assert StartsWith(RouterPath(path), "/") by {
      assert RouterPath(path)[..1] == "/";
    }
    if |path| > 0 && path[0] == '/' {
      assert path[..1] == "/";
    }
  }

  /** getFullPath: the base path followed by the normalised path. */
  function FullPath(nodeEnv: string, path: string): (r: string)
    ensures r == BasePath(nodeEnv) + RouterPath(path)
  {
    var normalized := if StartsWith(path, "/") then path else "/" + path;
    BasePath(nodeEnv) + normalized
  }

  /** Outside production the full path is the router path; in production
      it is the router path under the prefix, joined by exactly one '/', and
      it still starts with '/'. */
  lemma FullPathShape(nodeEnv: string, path: string)
    ensures nodeEnv != "production" ==> FullPath(nodeEnv, path) == RouterPath(path)
    ensures nodeEnv == "production" ==> FullPath(nodeEnv, path)[..|BASE_PATH|] == BASE_PATH
    ensures nodeEnv == "production" ==>
      FullPath(nodeEnv, path)[|BASE_PATH| - 1] != '/' && FullPath(nodeEnv, path)[|BASE_PATH|] == '/'
    ensures FullPath(nodeEnv, path)[0] == '/'
  {
  }
}
