/**
 * The short repository name an unreleased chain's card shows: the repository URL without its
 * GitHub prefix, cut down to its last two path segments (`owner/repo`), and the last segment
 * alone for the compact view.
 */
module UnreleasedCard {
  import opened JsString

  const GitHubPrefix: string := "https://github.com/"

  /** The URL with the first occurrence of the GitHub prefix removed. */
  function Rest(url: string): string {
    ReplaceFirst(url, GitHubPrefix, "")
  }

  /** `parts.slice(-2)`: the last two elements, or all of them when there are fewer. */
  function LastTwo<T>(parts: seq<T>): (r: seq<T>)
    ensures |r| == if |parts| < 2 then |parts| else 2
    ensures r == parts[|parts| - |r|..]
  {
    if |parts| <= 2 then parts else parts[|parts| - 2..]
  }

  /** `parts.pop()` on a non-empty array: its last element. */
  function Last<T>(parts: seq<T>): T
    requires |parts| >= 1
  {
    parts[|parts| - 1]
  }

  /** The last (at most two) segments of `path`, rejoined, are a suffix of `path`. */
  lemma {:induction false} LastSegmentsAreSuffix(path: string)
    ensures EndsWith(path, Join(LastTwo(Split(path, '/')), "/"))
  {
    var segments := Split(path, '/');
    var d := Join(LastTwo(segments), "/");
    JoinSplit(path, '/');
    if |segments| > 2 {
      var k := |segments| - 2;
      JoinSplitAt(segments, "/", k);
      assert LastTwo(segments) == segments[k..];
      var front := Join(segments[..k], "/") + "/";
      assert path == front + d;
      assert path[|front|..] == d;
    } else {
      assert LastTwo(segments) == segments;
      assert path[0..] == path;
    }
  }

  /** The last (at most two) segments of `path`, rejoined, split back into themselves, end in
    * the last segment of `path`, and hold one `/` exactly when `path` holds one. */
  lemma {:induction false} LastSegmentsSeparators(path: string)
    ensures var d := Join(LastTwo(Split(path, '/')), "/");
      && Split(d, '/') == LastTwo(Split(path, '/'))
      && multiset(d)['/'] <= 1
      && (multiset(d)['/'] == 1 <==> '/' in path)
      && Last(Split(d, '/')) == Last(Split(path, '/'))
  {
    var parts := LastTwo(Split(path, '/'));
    SplitCount(path, '/');
    SeparatorsInJoin(parts, '/');
    SplitJoin(parts, '/');
  }

  /** The last (at most two) `/`-segments of `path`, rejoined with `/`: a suffix of `path` that
    * splits back into exactly those segments, holding one `/` exactly when `path` holds one. */
  function LastSegments(path: string): (d: string)
    ensures EndsWith(path, d)
    ensures Split(d, '/') == LastTwo(Split(path, '/'))
    ensures multiset(d)['/'] <= 1
    ensures multiset(d)['/'] == 1 <==> '/' in path
    ensures Last(Split(d, '/')) == Last(Split(path, '/'))
  {
    LastSegmentsSeparators(path);
    LastSegmentsAreSuffix(path);
    Join(LastTwo(Split(path, '/')), "/")
  }

  /** `displayUrl`: the last (at most two) `/`-segments of the rest, rejoined with `/`. The
    * shorthand is a suffix of the rest of the URL, splits into exactly those segments, holds at
    * most one `/` (exactly when the rest does), and ends in the same last segment. */
  function DisplayUrl(url: string): (d: string)
    ensures EndsWith(Rest(url), d)
    ensures multiset(d)['/'] <= 1
    ensures multiset(d)['/'] == 1 <==> '/' in Rest(url)
    ensures Split(d, '/') == LastTwo(Split(Rest(url), '/'))
    ensures Last(Split(d, '/')) == Last(Split(Rest(url), '/'))
  {
    LastSegments(Rest(url))
  }

  /** `repoNameOnly`: the last `/`-segment of `displayUrl`, which is the last segment of the rest
    * of the URL and holds no `/`. */
  function RepoNameOnly(url: string): (name: string)
    ensures name == Last(Split(Rest(url), '/'))
    ensures '/' !in name
  {
    Last(Split(DisplayUrl(url), '/'))
  }

  /** The last piece of a split of a string that ends in the separator is empty. */
  lemma {:induction false} SplitEndingInSeparator(s: string, sep: char)
    ensures Last(Split(s + [sep], sep)) == []
  {
    if s == [] {
      assert [] + [sep] == [sep];
      assert [sep][1..] == [];
    } else {
      SplitEndingInSeparator(s[1..], sep);
      assert (s + [sep])[1..] == s[1..] + [sep];
    }
  }

  /** A GitHub URL with a trailing `/` has an empty repository name. */
  lemma {:induction false} TrailingSlashGivesEmptyName(path: string)
    ensures RepoNameOnly(GitHubPrefix + path + "/") == ""
  {
    RemovePrefix(GitHubPrefix, path + "/");
    assert GitHubPrefix + path + "/" == GitHubPrefix + (path + "/");
    SplitEndingInSeparator(path, '/');
  }

  /** `https://github.com/<owner>/<repo>` shows as `<owner>/<repo>`, or `<repo>` in the compact
    * view. */
  lemma {:induction false} OwnerAndRepo(owner: string, repo: string)
    requires '/' !in owner && '/' !in repo
    ensures DisplayUrl(GitHubPrefix + owner + "/" + repo) == owner + "/" + repo
    ensures RepoNameOnly(GitHubPrefix + owner + "/" + repo) == repo
  {
    var url := GitHubPrefix + owner + "/" + repo;
    assert Rest(url) == owner + "/" + repo by {
      assert url == GitHubPrefix + (owner + "/" + repo);
      RemovePrefix(GitHubPrefix, owner + "/" + repo);
    }
    var parts := Split(Rest(url), '/');
    assert parts == [owner, repo] by {
      SplitWithoutSeparator(repo, '/');
      SplitAfterPiece(owner, repo, '/');
    }
    assert LastTwo(parts) == parts;
    assert parts[1..] == [repo];
    assert DisplayUrl(url) == Join(parts, "/") == owner + "/" + repo;
  }
}
