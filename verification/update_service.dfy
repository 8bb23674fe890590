/**
 * Version pinning of the glyph and font assets (services/update_service.py).
 *
 * The GitHub API is a snapshot value: a map entry stands for a successful
 * response, a missing one for a request that did not succeed. Downloads,
 * archive extraction, copying and JSON files are outside the model; the two
 * `version.json` files of the glyph assets are the fields of `GlyphAssets`,
 * and the download cache of `update_fonts` is a set of existing paths.
 */
module UpdateService {
  import opened Wrappers
  import opened Paths

  const GithubUrl: string := "https://github.com/"
  const GithubApiReposUrl: string := "https://api.github.com/repos/"

  datatype TagInfo = TagInfo(name: string, commitSha: string)

  /** What the GitHub API answers: the latest release's tag name per repository,
      the tag list per repository and the head commit per (repository, branch). */
  datatype GitHub = GitHub(
    latestReleaseTags: map<string, string>,
    tags: map<string, seq<TagInfo>>,
    branchHeads: map<(string, string), string>)

  /** `SourceType` of the ark-pixel configuration; any other configured value is `Unrecognized`. */
  datatype SourceType = Tag | Branch | Commit | Unrecognized(text: string)

  datatype SourceConfig = SourceConfig(repositoryName: string, sourceType: SourceType, sourceName: Option<string>)

  /** The glyph assets' `version.json` record; `None` is JSON null. */
  datatype VersionInfo = VersionInfo(sha: Option<string>, version: Option<string>, versionUrl: string, assetUrl: string)

  datatype UpdateError =
    | RequestFailed(url: string)
    | TagNotFound(tagName: string)
    | UnknownSourceType(sourceType: string)
    | VersionFileMissing
    | NullSha  // a `None` sha used as a path component (`TypeError`)

  /** How a Python f-string renders a string that may be `None`. */
  function PyStr(s: Option<string>): string {
    match s
    case Some(v) => v
    case None => "None"
  }

  // ---------------------------------------------------------------------------
  // GitHub lookups

  /** `_get_github_releases_latest_tag_name`. */
  function LatestReleaseTagName(gh: GitHub, repositoryName: string): (r: Result<string, UpdateError>)
    ensures r.Success? <==> repositoryName in gh.latestReleaseTags
  {
    if repositoryName in gh.latestReleaseTags then Success(gh.latestReleaseTags[repositoryName])
    else Failure(RequestFailed(GithubApiReposUrl + repositoryName + "/releases/latest"))
  }

  /** `_get_github_branch_latest_commit_sha`. */
  function BranchLatestCommitSha(gh: GitHub, repositoryName: string, branchName: string): (r: Result<string, UpdateError>)
    ensures r.Success? <==> (repositoryName, branchName) in gh.branchHeads
  {
    if (repositoryName, branchName) in gh.branchHeads then Success(gh.branchHeads[(repositoryName, branchName)])
    else Failure(RequestFailed(GithubApiReposUrl + repositoryName + "/branches/" + branchName))
  }

  /** `sha` is the commit of the first tag in the list named `tagName`. */
  ghost predicate FirstMatchSha(tagInfos: seq<TagInfo>, tagName: string, sha: string) {
    exists i :: 0 <= i < |tagInfos| && tagInfos[i].name == tagName && tagInfos[i].commitSha == sha &&
      forall j :: 0 <= j < i ==> tagInfos[j].name != tagName
  }

  /** The commit of the first tag named `tagName`, if any. */
  function FirstTagSha(tagInfos: seq<TagInfo>, tagName: string): (r: Option<string>)
    ensures r.None? <==> forall i :: 0 <= i < |tagInfos| ==> tagInfos[i].name != tagName
    ensures r.Some? ==> FirstMatchSha(tagInfos, tagName, r.value)
  {
    if tagInfos == [] then None
    else if tagInfos[0].name == tagName then
      assert FirstMatchSha(tagInfos, tagName, tagInfos[0].commitSha) by {
        assert tagInfos[0].name == tagName;
      }
      Some(tagInfos[0].commitSha)
    else
      var rest := FirstTagSha(tagInfos[1..], tagName);
      assert rest.None? ==> forall i :: 0 <= i < |tagInfos| ==> tagInfos[i].name != tagName by {
        if rest.None? {
          forall i | 0 <= i < |tagInfos| ensures tagInfos[i].name != tagName {
            if i > 0 { assert tagInfos[i] == tagInfos[1..][i - 1]; }
          }
        }
      }
      assert rest.Some? ==> FirstMatchSha(tagInfos, tagName, rest.value) by {
        if rest.Some? {
          var k :| 0 <= k < |tagInfos[1..]| && tagInfos[1..][k].name == tagName && tagInfos[1..][k].commitSha == rest.value &&
                   forall j :: 0 <= j < k ==> tagInfos[1..][j].name != tagName;
          forall j | 0 <= j < k + 1 ensures tagInfos[j].name != tagName {
            if j > 0 { assert tagInfos[j] == tagInfos[1..][j - 1]; }
          }
        }
      }
      rest
  }

  /** What `_get_github_tag_sha` returns or raises. */
  function TagShaResult(gh: GitHub, repositoryName: string, tagName: string): Result<string, UpdateError> {
    if repositoryName !in gh.tags then Failure(RequestFailed(GithubApiReposUrl + repositoryName + "/tags"))
    else
      match FirstTagSha(gh.tags[repositoryName], tagName)
      case Some(sha) => Success(sha)
      case None => Failure(TagNotFound(tagName))
  }

  /** `_get_github_tag_sha`: a linear search of the tag list that stops at the first match. */
  method GetGithubTagSha(gh: GitHub, repositoryName: string, tagName: string) returns (r: Result<string, UpdateError>)
    ensures r == TagShaResult(gh, repositoryName, tagName)
    ensures r.Success? ==> FirstMatchSha(gh.tags[repositoryName], tagName, r.value)
  {
    if repositoryName !in gh.tags {
      return Failure(RequestFailed(GithubApiReposUrl + repositoryName + "/tags"));
    }
    var tagInfos := gh.tags[repositoryName];
    for i := 0 to |tagInfos|
      invariant forall j :: 0 <= j < i ==> tagInfos[j].name != tagName
    {
      if tagInfos[i].name == tagName {
        assert FirstMatchSha(tagInfos, tagName, tagInfos[i].commitSha);
        return Success(tagInfos[i].commitSha);
      }
    }
    return Failure(TagNotFound(tagName));
  }

  // ---------------------------------------------------------------------------
  // update_glyphs_version

  /** The record `update_glyphs_version` writes for a resolved sha and version. */
  function MakeVersionInfo(repositoryName: string, sha: Option<string>, version: Option<string>): VersionInfo {
    VersionInfo(sha, version,
                GithubUrl + repositoryName + "/tree/" + PyStr(version),
                GithubUrl + repositoryName + "/archive/" + PyStr(sha) + ".zip")
  }

  /** The tag a TAG source resolves to: the configured one, else the latest release's. */
  function TagToResolve(config: SourceConfig, gh: GitHub): Result<string, UpdateError> {
    if config.sourceName.None? then LatestReleaseTagName(gh, config.repositoryName)
    else Success(config.sourceName.value)
  }

  /** The version record `update_glyphs_version` writes, or the error it raises. */
  function ResolveGlyphsVersion(config: SourceConfig, gh: GitHub): (r: Result<VersionInfo, UpdateError>)
    ensures r.Success? ==> r.value.versionUrl == GithubUrl + config.repositoryName + "/tree/" + PyStr(r.value.version)
    ensures r.Success? ==> r.value.assetUrl == GithubUrl + config.repositoryName + "/archive/" + PyStr(r.value.sha) + ".zip"
    ensures config.sourceType.Unrecognized? ==> r == Failure(UnknownSourceType(config.sourceType.text))
    ensures config.sourceType.Commit? ==> r.Success? && r.value.sha == config.sourceName && r.value.version == config.sourceName
    ensures config.sourceType.Branch? ==>
              (r.Success? <==> (config.repositoryName, PyStr(config.sourceName)) in gh.branchHeads) &&
              (r.Success? ==> r.value.version == config.sourceName &&
                              r.value.sha == Some(gh.branchHeads[(config.repositoryName, PyStr(config.sourceName))]))
    ensures config.sourceType.Tag? && r.Success? ==>
              && r.value.version.Some? && r.value.sha.Some?
              && config.repositoryName in gh.tags
              && (config.sourceName.Some? ==> r.value.version == config.sourceName)
              && (config.sourceName.None? ==> config.repositoryName in gh.latestReleaseTags &&
                                              r.value.version == Some(gh.latestReleaseTags[config.repositoryName]))
              && FirstMatchSha(gh.tags[config.repositoryName], r.value.version.value, r.value.sha.value)
    ensures config.sourceType.Tag? && TagToResolve(config, gh).Success? && config.repositoryName in gh.tags ==>
              (r.Success? <==> exists i :: 0 <= i < |gh.tags[config.repositoryName]| &&
                                 gh.tags[config.repositoryName][i].name == TagToResolve(config, gh).value)
  {
    var repo := config.repositoryName;
    match config.sourceType
    case Tag =>
      (match TagToResolve(config, gh)
       case Failure(e) => Failure(e)
       case Success(tagName) =>
         match TagShaResult(gh, repo, tagName)
         case Failure(e) => Failure(e)
         case Success(sha) => Success(MakeVersionInfo(repo, Some(sha), Some(tagName))))
    case Branch =>
      (match BranchLatestCommitSha(gh, repo, PyStr(config.sourceName))
       case Failure(e) => Failure(e)
       case Success(sha) => Success(MakeVersionInfo(repo, Some(sha), config.sourceName)))
    case Commit => Success(MakeVersionInfo(repo, config.sourceName, config.sourceName))
    case Unrecognized(text) => Failure(UnknownSourceType(text))
  }

  // ---------------------------------------------------------------------------
  // setup_glyphs

  /** The sha recorded by an installed version file; a missing file records none. */
  function InstalledSha(installed: Option<VersionInfo>): Option<string> {
    match installed
    case Some(info) => info.sha
    case None => None
  }

  /** Whether `setup_glyphs` goes past its up-to-date check. */
  function NeedsSetup(installed: Option<VersionInfo>, target: VersionInfo): (needed: bool)
    ensures installed.Some? ==> (needed <==> installed.value.sha != target.sha)
    ensures installed.None? ==> (needed <==> target.sha.Some?)
    ensures installed == Some(target) ==> !needed
  {
    InstalledSha(installed) != target.sha
  }

  /** The two `version.json` files of the glyph assets. */
  class GlyphAssets {
    /** The version the build is pinned to (in the glyphs directory). */
    var pinned: Option<VersionInfo>
    /** The version whose glyphs are installed (in the ark-pixel glyphs directory). */
    var installed: Option<VersionInfo>

    constructor (pinned: Option<VersionInfo>, installed: Option<VersionInfo>)
      ensures this.pinned == pinned && this.installed == installed
    {
      this.pinned := pinned;
      this.installed := installed;
    }

    /** `update_glyphs_version`: resolves the configured source and writes the pinned record. */
    method UpdateGlyphsVersion(config: SourceConfig, gh: GitHub) returns (r: Result<VersionInfo, UpdateError>)
      modifies this
      ensures r == ResolveGlyphsVersion(config, gh)
      ensures pinned == (if r.Success? then Some(r.value) else old(pinned))
      ensures installed == old(installed)
    {
      var repo := config.repositoryName;
      var sha: Option<string>;
      var version: Option<string>;
      match config.sourceType {
        case Tag =>
          var tagName: string;
          if config.sourceName.None? {
            var latest := LatestReleaseTagName(gh, repo);
            if latest.Failure? {
              return Failure(latest.error);
            }
            tagName := latest.value;
          } else {
            tagName := config.sourceName.value;
          }
          var found := GetGithubTagSha(gh, repo, tagName);
          if found.Failure? {
            return Failure(found.error);
          }
          sha, version := Some(found.value), Some(tagName);
        case Branch =>
          var head := BranchLatestCommitSha(gh, repo, PyStr(config.sourceName));
          if head.Failure? {
            return Failure(head.error);
          }
          sha, version := Some(head.value), config.sourceName;
        case Commit =>
          sha := config.sourceName;
          version := sha;
        case Unrecognized(text) =>
          return Failure(UnknownSourceType(text));
      }
      var info := VersionInfo(sha, version,
                              GithubUrl + repo + "/tree/" + PyStr(version),
                              GithubUrl + repo + "/archive/" + PyStr(sha) + ".zip");
      pinned := Some(info);
      return Success(info);
    }

    /** `setup_glyphs`: installs the pinned version unless its sha is already installed.
        The result says whether the installation ran. */
    method SetupGlyphs() returns (r: Result<bool, UpdateError>)
      modifies this
      ensures pinned == old(pinned)
      ensures old(pinned).None? ==> r == Failure(VersionFileMissing)
      ensures old(pinned).Some? && !NeedsSetup(old(installed), old(pinned).value) ==> r == Success(false)
      ensures old(pinned).Some? && NeedsSetup(old(installed), old(pinned).value) ==>
        r == (if old(pinned).value.sha.None? then Failure(NullSha) else Success(true))
      ensures installed == (if r == Success(true) then old(pinned) else old(installed))
    {
      var currentSha := InstalledSha(installed);
      if pinned.None? {
        return Failure(VersionFileMissing);
      }
      var info := pinned.value;
      if currentSha == info.sha {
        return Success(false);
      }
      if info.sha.None? {
        // the download directory is joined with the sha before anything is touched
        return Failure(NullSha);
      }
      installed := Some(info);
      return Success(true);
    }
  }

  // ---------------------------------------------------------------------------
  // update_fonts

  /** A piece of a `str.format` template using only the `{version}` field. */
  datatype TemplatePart = Text(text: string) | VersionField

  function Render(template: seq<TemplatePart>, version: string): string {
    if template == [] then []
    else
      (match template[0] case Text(t) => t case VersionField => version) + Render(template[1..], version)
  }

  datatype AssetConfig = AssetConfig(fileName: seq<TemplatePart>)

  datatype UpdateConfig = UpdateConfig(name: string, repositoryName: string, tagName: Option<string>, assetConfigs: seq<AssetConfig>)

  /** The fonts' `version.json` record. */
  datatype FontsVersionInfo = FontsVersionInfo(repositoryUrl: string, version: string, versionUrl: string)

  /** One asset: where it is cached and the URL it was downloaded from, if it was. */
  datatype AssetFetch = AssetFetch(filePath: string, downloadUrl: Option<string>)

  datatype FontsUpdate = FontsUpdate(fetches: seq<AssetFetch>, cache: set<string>, versionInfo: FontsVersionInfo)

  /** `tag_name.removeprefix('v')`. */
  function RemoveVersionPrefix(tagName: string): (version: string)
    ensures tagName == version || tagName == "v" + version
    ensures (|tagName| > 0 && tagName[0] == 'v') <==> tagName == "v" + version
  {
    if |tagName| > 0 && tagName[0] == 'v' then tagName[1..] else tagName
  }

  /** The assets fetched for `assets`, in order, and the cache afterwards. */
  function FetchAssets(assets: seq<AssetConfig>, downloadDir: string, repositoryUrl: string, tagName: string,
                       version: string, cached: set<string>): (seq<AssetFetch>, set<string>)
    decreases |assets|
  {
    if assets == [] then ([], cached)
    else
      var (fetches, cache) := FetchAssets(assets[..|assets| - 1], downloadDir, repositoryUrl, tagName, version, cached);
      var fileName := Render(assets[|assets| - 1].fileName, version);
      var filePath := Join(downloadDir, fileName);
      if filePath in cache then (fetches + [AssetFetch(filePath, None)], cache)
      else
        var url := repositoryUrl + "/releases/download/" + tagName + "/" + fileName;
        (fetches + [AssetFetch(filePath, Some(url))], cache + {filePath})
  }

  /** What `update_fonts` fetches and records, or the error it raises. */
  function PlanFontsUpdate(config: UpdateConfig, gh: GitHub, cacheDir: string, cached: set<string>)
    : (r: Result<FontsUpdate, UpdateError>)
    ensures r.Success? <==> config.tagName.Some? || config.repositoryName in gh.latestReleaseTags
    ensures r.Success? ==>
      var tag := if config.tagName.Some? then config.tagName.value else gh.latestReleaseTags[config.repositoryName];
      var repositoryUrl := GithubUrl + config.repositoryName;
      && r.value.versionInfo == FontsVersionInfo(repositoryUrl, RemoveVersionPrefix(tag), repositoryUrl + "/releases/tag/" + tag)
      && (r.value.fetches, r.value.cache) ==
           FetchAssets(config.assetConfigs, Join(Join(cacheDir, config.repositoryName), tag), repositoryUrl, tag, RemoveVersionPrefix(tag), cached)
  {
    var tag := if config.tagName.None? then LatestReleaseTagName(gh, config.repositoryName) else Success(config.tagName.value);
    match tag
    case Failure(e) => Failure(e)
    case Success(tagName) =>
      var version := RemoveVersionPrefix(tagName);
      var repositoryUrl := GithubUrl + config.repositoryName;
      var downloadDir := Join(Join(cacheDir, config.repositoryName), tagName);
      var (fetches, cache) := FetchAssets(config.assetConfigs, downloadDir, repositoryUrl, tagName, version, cached);
      Success(FontsUpdate(fetches, cache, FontsVersionInfo(repositoryUrl, version, repositoryUrl + "/releases/tag/" + tagName)))
  }

  /** `update_fonts`: downloads each asset that is not cached yet. */
  method UpdateFonts(config: UpdateConfig, gh: GitHub, cacheDir: string, cached: set<string>)
    returns (r: Result<FontsUpdate, UpdateError>)
    ensures r == PlanFontsUpdate(config, gh, cacheDir, cached)
  {
    var tagName: string;
    if config.tagName.None? {
      var latest := LatestReleaseTagName(gh, config.repositoryName);
      if latest.Failure? {
        return Failure(latest.error);
      }
      tagName := latest.value;
    } else {
      tagName := config.tagName.value;
    }
    var version := RemoveVersionPrefix(tagName);
    var repositoryUrl := GithubUrl + config.repositoryName;
    var downloadDir := Join(Join(cacheDir, config.repositoryName), tagName);
    var assets := config.assetConfigs;
    var fetches: seq<AssetFetch> := [];
    var cache := cached;
    for i := 0 to |assets|
      invariant (fetches, cache) == FetchAssets(assets[..i], downloadDir, repositoryUrl, tagName, version, cached)
    {
      assert assets[..i + 1][..i] == assets[..i];
      var fileName := Render(assets[i].fileName, version);
      var filePath := Join(downloadDir, fileName);
      if filePath !in cache {
        var url := repositoryUrl + "/releases/download/" + tagName + "/" + fileName;
        fetches := fetches + [AssetFetch(filePath, Some(url))];
        cache := cache + {filePath};
      } else {
        fetches := fetches + [AssetFetch(filePath, None)];
      }
    }
    assert assets[..|assets|] == assets;
    var info := FontsVersionInfo(repositoryUrl, version, repositoryUrl + "/releases/tag/" + tagName);
    return Success(FontsUpdate(fetches, cache, info));
  }

  /** The last asset extends the fetches of the others by one. */
  lemma FetchAssetsLast(assets: seq<AssetConfig>, downloadDir: string, repositoryUrl: string,
                        tagName: string, version: string, cached: set<string>)
    requires assets != []
    ensures var (fetches0, cache0) := FetchAssets(assets[..|assets| - 1], downloadDir, repositoryUrl, tagName, version, cached);
      var (fetches, cache) := FetchAssets(assets, downloadDir, repositoryUrl, tagName, version, cached);
      var fileName := Render(assets[|assets| - 1].fileName, version);
      var filePath := Join(downloadDir, fileName);
      && fetches == fetches0 + [fetches[|fetches| - 1]]
      && fetches[|fetches| - 1].filePath == filePath
      && (fetches[|fetches| - 1].downloadUrl.Some? <==> filePath !in cache0)
      && (fetches[|fetches| - 1].downloadUrl.Some? ==>
            fetches[|fetches| - 1].downloadUrl.value == repositoryUrl + "/releases/download/" + tagName + "/" + fileName)
      && cache == cache0 + {filePath}
  {
  }

  /** Each asset is cached under the download directory by its rendered name, and
      one that is downloaded comes from the release's download URL. */
  lemma {:induction false} FetchAssetsPaths(assets: seq<AssetConfig>, downloadDir: string, repositoryUrl: string,
                                            tagName: string, version: string, cached: set<string>)
    ensures var fetches := FetchAssets(assets, downloadDir, repositoryUrl, tagName, version, cached).0;
      && |fetches| == |assets|
      && (forall i :: 0 <= i < |assets| ==> fetches[i].filePath == Join(downloadDir, Render(assets[i].fileName, version)))
      && (forall i :: 0 <= i < |assets| && fetches[i].downloadUrl.Some? ==>
            fetches[i].downloadUrl.value == repositoryUrl + "/releases/download/" + tagName + "/" + Render(assets[i].fileName, version))
    decreases |assets|
  {
    if assets != [] {
      var init := assets[..|assets| - 1];
      FetchAssetsPaths(init, downloadDir, repositoryUrl, tagName, version, cached);
      FetchAssetsLast(assets, downloadDir, repositoryUrl, tagName, version, cached);
      assert forall i :: 0 <= i < |init| ==> init[i] == assets[i];
    }
  }

  /** Afterwards the cache holds what it held before and every asset's path. */
  lemma {:induction false} FetchAssetsCache(assets: seq<AssetConfig>, downloadDir: string, repositoryUrl: string,
                                            tagName: string, version: string, cached: set<string>)
    ensures var (fetches, cache) := FetchAssets(assets, downloadDir, repositoryUrl, tagName, version, cached);
      |fetches| == |assets| && cache == cached + set i | 0 <= i < |fetches| :: fetches[i].filePath
    decreases |assets|
  {
    FetchAssetsPaths(assets, downloadDir, repositoryUrl, tagName, version, cached);
    if assets != [] {
      var init := assets[..|assets| - 1];
      FetchAssetsCache(init, downloadDir, repositoryUrl, tagName, version, cached);
      FetchAssetsLast(assets, downloadDir, repositoryUrl, tagName, version, cached);
      var fetches0 := FetchAssets(init, downloadDir, repositoryUrl, tagName, version, cached).0;
      var fetches := FetchAssets(assets, downloadDir, repositoryUrl, tagName, version, cached).0;
      var n := |fetches0|;
      assert forall i :: 0 <= i < n ==> fetches[i] == fetches0[i];
      assert (set i | 0 <= i < |fetches| :: fetches[i].filePath) ==
             (set i | 0 <= i < n :: fetches0[i].filePath) + {fetches[n].filePath};
    }
  }

  /** An asset is downloaded exactly when neither the cache nor an earlier asset of
      the same run already holds its path. */
  lemma {:induction false} FetchAssetsDownloads(assets: seq<AssetConfig>, downloadDir: string, repositoryUrl: string,
                                                tagName: string, version: string, cached: set<string>)
    ensures var fetches := FetchAssets(assets, downloadDir, repositoryUrl, tagName, version, cached).0;
      forall i :: 0 <= i < |fetches| ==>
        (fetches[i].downloadUrl.Some? <==>
           fetches[i].filePath !in cached && forall j :: 0 <= j < i ==> fetches[j].filePath != fetches[i].filePath)
    decreases |assets|
  {
    if assets != [] {
      var init := assets[..|assets| - 1];
      FetchAssetsDownloads(init, downloadDir, repositoryUrl, tagName, version, cached);
      FetchAssetsCache(init, downloadDir, repositoryUrl, tagName, version, cached);
      FetchAssetsLast(assets, downloadDir, repositoryUrl, tagName, version, cached);
      var fetches0 := FetchAssets(init, downloadDir, repositoryUrl, tagName, version, cached).0;
      var fetches := FetchAssets(assets, downloadDir, repositoryUrl, tagName, version, cached).0;
      var n := |fetches0|;
      assert forall i :: 0 <= i < n ==> fetches[i] == fetches0[i];
    }
  }
}
