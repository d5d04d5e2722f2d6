/**
 * The decisions `Package.get_package` makes on the index's answers, as
 * functions: which version, which artifact, and how the recipe's fields are
 * derived. `Pip2Arch.Package.GetPackage` performs the same steps on the
 * object's fields.
 */
module Derivation {
  import opened Wrappers
  import opened Text
  import opened SourceFile
  import opened Registry

  // ---------------------------------------------------------------------------
  // Version resolution

  /** `answers[k]` is the first answer the prompt accepts. */
  predicate FirstListedAnswer(versions: seq<string>, answers: seq<string>, k: int) {
    0 <= k < |answers| && answers[k] in versions
    && forall j :: 0 <= j < k ==> answers[j] !in versions
  }

  /**
   * `choose_version`: ask until the answer is one of `versions`. The console is
   * the sequence `answers`; `None` means it ran out before a listed version was
   * typed (the program recurses once per rejected answer, until the
   * interpreter's recursion limit stops it).
   */
  function ChooseVersion(versions: seq<string>, answers: seq<string>): (r: Option<string>)
    ensures r.Some? ==> r.value in versions
    ensures r.Some? <==> exists k :: 0 <= k < |answers| && answers[k] in versions
    ensures r.Some? ==> exists k :: FirstListedAnswer(versions, answers, k) && r.value == answers[k]
  {
    if answers == [] then
      None
    else if answers[0] in versions then
      assert FirstListedAnswer(versions, answers, 0);
      Some(answers[0])
    else
      ChooseVersionTail(versions, answers);
      ChooseVersion(versions, answers[1..])
  }

  lemma ChooseVersionTail(versions: seq<string>, answers: seq<string>)
    requires answers != [] && answers[0] !in versions
    ensures (exists k :: 0 <= k < |answers| && answers[k] in versions)
        <==> (exists k :: 0 <= k < |answers[1..]| && answers[1..][k] in versions)
    ensures forall k :: FirstListedAnswer(versions, answers[1..], k)
                        ==> FirstListedAnswer(versions, answers, k + 1)
  {
    if exists k :: 0 <= k < |answers| && answers[k] in versions {
      var k :| 0 <= k < |answers| && answers[k] in versions;
      assert answers[1..][k - 1] == answers[k];
    }
    forall k | FirstListedAnswer(versions, answers[1..], k)
      ensures FirstListedAnswer(versions, answers, k + 1)
    {
      forall j | 0 <= j < k + 1
        ensures answers[j] !in versions
      {
        if j > 0 {
          assert answers[j] == answers[1..][j - 1];
        }
      }
    }
  }

  /**
   * The first lines of `get_package`: an explicit version is taken as given;
   * otherwise a single listed release is taken, several are offered to the
   * prompt, and none at all fails on `versions[0]`.
   */
  function ResolveVersion(version: Option<string>, releases: seq<string>, answers: seq<string>)
    : (r: Result<string, Failure>)
    ensures version.Some? ==> r == Success(version.value)
    ensures version.None? && r.Success? ==> r.value in releases
    ensures version.None? && |releases| == 1 ==> r == Success(releases[0])
    ensures version.None? && releases == [] ==> r == Failure(NoVersions)
    ensures version.None? && |releases| > 1 ==>
      (r.Success? <==> exists k :: 0 <= k < |answers| && answers[k] in releases)
    ensures version.None? && |releases| > 1 && r.Success? ==>
      exists k :: FirstListedAnswer(releases, answers, k) && r.value == answers[k]
    ensures r.Failure? ==> r.error == NoVersions || r.error == InputExhausted
  {
    match version
    case Some(v) => Success(v)
    case None =>
      if |releases| > 1 then
        match ChooseVersion(releases, answers)
        case Some(v) => Success(v)
        case None => Failure(InputExhausted)
      else if releases == [] then
        Failure(NoVersions)
      else
        Success(releases[0])
  }

  // ---------------------------------------------------------------------------
  // Artifact selection

  /** The artifact's file name passes the archive-name test. */
  predicate Matches(a: Artifact) {
    IsSourceFile(a.filename)
  }

  /** No artifact of `raw` matches. */
  predicate NoneMatches(raw: seq<Artifact>) {
    forall k :: 0 <= k < |raw| ==> !Matches(raw[k])
  }

  /** `raw[k]` matches and no later artifact does. */
  predicate IsLastMatch(raw: seq<Artifact>, k: int) {
    0 <= k < |raw| && Matches(raw[k]) && forall j :: k < j < |raw| ==> !Matches(raw[j])
  }

  /** The artifact the selection loop ends with: the last one whose file name matches. */
  function LastMatch(raw: seq<Artifact>): (r: Option<Artifact>)
    ensures r.None? <==> NoneMatches(raw)
    ensures r.Some? ==> exists k :: IsLastMatch(raw, k) && r.value == raw[k]
    decreases |raw|
  {
    if raw == [] then
      None
    else if Matches(raw[|raw| - 1]) then
      assert IsLastMatch(raw, |raw| - 1);
      Some(raw[|raw| - 1])
    else
      LastMatchFront(raw);
      LastMatch(raw[..|raw| - 1])
  }

  lemma LastMatchFront(raw: seq<Artifact>)
    requires raw != [] && !Matches(raw[|raw| - 1])
    ensures NoneMatches(raw) <==> NoneMatches(raw[..|raw| - 1])
    ensures forall k :: IsLastMatch(raw[..|raw| - 1], k) ==> IsLastMatch(raw, k)
  {
    NoneMatchesFront(raw);
    forall k | IsLastMatch(raw[..|raw| - 1], k)
      ensures IsLastMatch(raw, k)
    {
      LastMatchExtends(raw, k);
    }
  }

  lemma NoneMatchesFront(raw: seq<Artifact>)
    requires raw != [] && !Matches(raw[|raw| - 1])
    ensures NoneMatches(raw) <==> NoneMatches(raw[..|raw| - 1])
  {
    var front := raw[..|raw| - 1];
    if NoneMatches(front) {
      forall k | 0 <= k < |raw|
        ensures !Matches(raw[k])
      {
        if k < |front| {
          assert front[k] == raw[k];
        }
      }
    }
  }

  lemma LastMatchExtends(raw: seq<Artifact>, k: int)
    requires raw != [] && !Matches(raw[|raw| - 1])
    requires IsLastMatch(raw[..|raw| - 1], k)
    ensures IsLastMatch(raw, k)
  {
    var front := raw[..|raw| - 1];
    assert front[k] == raw[k];
    forall j | k < j < |raw|
      ensures !Matches(raw[j])
    {
      if j < |front| {
        assert front[j] == raw[j];
      }
    }
  }

  /**
   * The loop of `get_package` over `release_urls`: every artifact whose file
   * name matches overwrites the previous choice.
   */
  method SelectArtifact(raw: seq<Artifact>) returns (chosen: Option<Artifact>)
    ensures chosen == LastMatch(raw)
  {
    chosen := None;
    var i := 0;
    while i < |raw|
      invariant 0 <= i <= |raw|
      invariant chosen == LastMatch(raw[..i])
    {
      assert raw[..i + 1][..i] == raw[..i];
      if Matches(raw[i]) {
        chosen := Some(raw[i]);
      }
      i := i + 1;
    }
    assert raw[..i] == raw;
  }

  /**
   * Where the sources come from, in the order the program checks: an empty
   * metadata dictionary, then an empty artifact list (falling back to
   * `download_url` without a checksum), then the last matching artifact.
   * `noMatch` is what is raised when artifacts exist but none matches.
   */
  function SourceOf(data: ReleaseData, raw: seq<Artifact>, version: string, noMatch: Failure)
    : (r: Result<Source, Failure>)
    ensures data.IsEmpty() ==> r == Failure(VersionNotFound(version))
    ensures !data.IsEmpty() && raw == [] && data.downloadUrl.None? ==>
      r == Failure(LackOfInformation(NOT_ENOUGH_INFORMATION))
    ensures !data.IsEmpty() && raw == [] && data.downloadUrl.Some? ==>
      r == if IsSourceFile(data.downloadUrl.value)
           then Success(Source(data.downloadUrl, None))
           else Failure(LackOfInformation(NO_SUITABLE_SOURCE))
    ensures !data.IsEmpty() && raw != [] ==>
      (r.Failure? <==> r == Failure(noMatch))
      && (r.Success? <==> !NoneMatches(raw))
    ensures !data.IsEmpty() && raw != [] && r.Success? ==>
      exists k :: IsLastMatch(raw, k) && r.value == Source(raw[k].url, raw[k].md5Digest)
  {
    if data.IsEmpty() then
      Failure(VersionNotFound(version))
    else if raw == [] then
      match data.downloadUrl
      case Some(u) =>
        if !IsSourceFile(u) then Failure(LackOfInformation(NO_SUITABLE_SOURCE))
        else Success(Source(Some(u), None))
      case None => Failure(LackOfInformation(NOT_ENOUGH_INFORMATION))
    else
      match LastMatch(raw)
      case Some(a) => Success(Source(a.url, a.md5Digest))
      case None => Failure(noMatch)
  }

  /**
   * Source selection as written: the no-match branch raises `pip2archException`
   * bare, since the message on the next line is an unreachable expression
   * statement after the `raise`. The exception's text is then empty.
   */
  function ChooseSourceAsWritten(data: ReleaseData, raw: seq<Artifact>, version: string)
    : (r: Result<Source, Failure>)
    ensures !data.IsEmpty() && raw != [] && r.Failure? ==> r.error == ToolError("")
  {
    SourceOf(data, raw, version, ToolError(""))
  }

  /** Source selection with the intended message on the no-match branch. */
  function ChooseSource(data: ReleaseData, raw: seq<Artifact>, version: string)
    : (r: Result<Source, Failure>)
    ensures r.Failure? ==> r.error.IsToolFailure()
    ensures r.Failure? && !r.error.VersionNotFound? ==> r.error.message != ""
  {
    SourceOf(data, raw, version, ToolError(NO_SUITABLE_SOURCES))
  }

  /**
   * Lines 109-128 of `get_package` step by step: the emptiness tests, the
   * `download_url` fallback, and the selection loop over the artifacts. The
   * no-match branch raises with the intended message, as `ChooseSource` does.
   */
  method SelectSource(data: ReleaseData, raw: seq<Artifact>, version: string)
    returns (r: Result<Source, Failure>)
    ensures r == ChooseSource(data, raw, version)
  {
    if data.IsEmpty() {
      return Failure(VersionNotFound(version));
    } else if raw == [] {
      if data.downloadUrl.Some? {
        if !IsSourceFile(data.downloadUrl.value) {
          return Failure(LackOfInformation(NO_SUITABLE_SOURCE));
        }
        r := Success(Source(data.downloadUrl, None));
      } else {
        return Failure(LackOfInformation(NOT_ENOUGH_INFORMATION));
      }
    } else {
      var chosen := SelectArtifact(raw);
      if chosen.None? {
        return Failure(ToolError(NO_SUITABLE_SOURCES));
      }
      r := Success(Source(chosen.value.url, chosen.value.md5Digest));
    }
  }

  /** A non-empty artifact list in which nothing matches: the bare raise loses its message. */
  lemma BareRaiseHasNoMessage(data: ReleaseData, version: string)
    requires !data.IsEmpty()
    ensures ChooseSourceAsWritten(data, [Artifact("pkg.whl", None, None)], version)
            == Failure(ToolError(""))
    ensures ChooseSource(data, [Artifact("pkg.whl", None, None)], version)
            == Failure(ToolError(NO_SUITABLE_SOURCES))
  {
    WheelRejected();
  }

  /** No artifacts: an archive `download_url` becomes the source, with no checksum. */
  lemma DownloadUrlFallback(data: ReleaseData, version: string)
    requires !data.IsEmpty() && data.downloadUrl == Some("pkg-1.0.tar.gz")
    ensures ChooseSource(data, [], version) == Success(Source(Some("pkg-1.0.tar.gz"), None))
  {
    TarballAccepted();
  }

  /** Two matching artifacts: the later one is chosen, not the first. */
  lemma LastMatchWins(data: ReleaseData, version: string)
    requires !data.IsEmpty()
    ensures ChooseSource(data, [Artifact("pkg-1.0.tar.gz", Some("a"), Some("1")),
                                Artifact("pkg-1.0.zip", Some("b"), Some("2"))], version)
            == Success(Source(Some("b"), Some("2")))
  {
    var s := "pkg-1.0.zip";
    assert s[8..] == "zip";
    assert MatchAt(s, 7);
    AcceptedAt(s, 7);
  }

  // ---------------------------------------------------------------------------
  // Field derivation

  /** The build-time package for the interpreter label. */
  function Distribute(pyversion: string): (r: string)
    ensures r == "python3" <==> pyversion == "python"
    ensures r == "python3" || r == "python2-distribute"
  {
    if pyversion != "python" then "python2-distribute" else "python3"
  }

  /** `re.search(r'Librar(ies|y)', item)`: the classifier mentions a library. */
  predicate IsLibraryClassifier(c: string) {
    Contains(c, "Library") || Contains(c, "Libraries")
  }

  /** Some classifier mentions a library. */
  predicate AnyLibrary(classifiers: seq<string>) {
    exists i :: 0 <= i < |classifiers| && IsLibraryClassifier(classifiers[i])
  }

  /**
   * The output package name: an explicit name, lower-cased; otherwise the
   * package name, lower-cased and, for a library, prefixed by the interpreter
   * label and a hyphen. Only without an explicit name are the classifiers
   * read, and a missing `classifiers` key is then a `KeyError`.
   */
  function DeriveOutname(name: string, outname: Option<string>, pyversion: string,
                         classifiers: Option<seq<string>>): (r: Result<string, Failure>)
    ensures outname.Some? ==> r == Success(Lower(outname.value))
    ensures outname.None? && classifiers.None? ==> r == Failure(MissingKey("classifiers"))
    ensures outname.None? && classifiers.Some? ==>
      r == Success(if AnyLibrary(classifiers.value) then Lower(pyversion) + "-" + Lower(name)
                   else Lower(name))
    ensures r.Success? ==> Lower(r.value) == r.value
  {
    if outname.Some? then
      LowerIdempotent(outname.value);
      Success(Lower(outname.value))
    else if classifiers.None? then
      Failure(MissingKey("classifiers"))
    else if AnyLibrary(classifiers.value) then
      PrefixedLower(pyversion, name);
      Success(Lower(pyversion + "-" + name))
    else
      LowerIdempotent(name);
      Success(Lower(name))
  }

  /** Lower-casing the prefixed name lower-cases each part and keeps the hyphen. */
  lemma PrefixedLower(pyversion: string, name: string)
    ensures Lower(pyversion + "-" + name) == Lower(pyversion) + "-" + Lower(name)
    ensures Lower(Lower(pyversion + "-" + name)) == Lower(pyversion + "-" + name)
  {
    LowerConcat(pyversion + "-", name);
    LowerConcat(pyversion, "-");
    assert Lower("-") == "-";
    LowerIdempotent(pyversion + "-" + name);
  }

  /**
   * The license label: free text longer than ten characters becomes
   * `CUSTOM`, an absent key `UNKNOWN`; anything else, the empty string
   * included, is kept.
   */
  function DeriveLicense(license: Option<string>): (r: string)
    ensures license.None? ==> r == "UNKNOWN"
    ensures license.Some? && |license.value| > 10 ==> r == "CUSTOM"
    ensures license.Some? && |license.value| <= 10 ==> r == license.value
    ensures |r| <= 10
  {
    if |license.GetOr("")| > 10 then "CUSTOM" else license.GetOr("UNKNOWN")
  }
}
