/**
 * What the package index returns, taken as plain values, and the ways
 * resolving a package can fail.
 */
module Registry {
  import opened Wrappers

  /**
   * The dictionary returned by `release_data(name, version)`. Each key the
   * program reads is a field that is `None` when the key is absent; `others`
   * holds the names of the keys it never reads, which matter only to the
   * "empty dictionary" test.
   */
  datatype ReleaseData = ReleaseData(
    name: Option<string>,
    summary: Option<string>,
    homePage: Option<string>,
    license: Option<string>,
    classifiers: Option<seq<string>>,
    requirements: Option<seq<string>>,   // the key `requires`
    downloadUrl: Option<string>,
    others: set<string>)
  {
    /** `others` names only keys the program never reads, so each dictionary has one encoding. */
    predicate WellFormed() {
      others !! {"name", "summary", "home_page", "license", "classifiers", "requires", "download_url"}
    }

    /** `not len(data)`: the dictionary has no key at all. */
    predicate IsEmpty() {
      name.None? && summary.None? && homePage.None? && license.None?
      && classifiers.None? && requirements.None? && downloadUrl.None? && others == {}
    }
  }

  /** One entry of `release_urls(name, version)`; `filename` is always present. */
  datatype Artifact = Artifact(filename: string, url: Option<string>, md5Digest: Option<string>)

  /**
   * The dictionary the program keeps as `urls` once it has chosen where the
   * sources come from: the chosen artifact, or `{'url': download_url}`.
   */
  datatype Source = Source(url: Option<string>, md5: Option<string>)

  /** The answers of the index for one package, for the version that gets resolved. */
  datatype Responses = Responses(
    releases: seq<string>,
    releaseData: ReleaseData,
    releaseUrls: seq<Artifact>)

  const NO_SUITABLE_SOURCE := "Couldn't find any suitable source"
  const NOT_ENOUGH_INFORMATION := "PyPi did not return the necessary information to create the PKGBUILD"
  const NO_SUITABLE_SOURCES := "Selected package version had no suitable sources"
  const NEEDED_INFORMATION := "PyPi did not return needed information"

  /**
   * Why resolving fails. The first three are the program's own exception
   * classes (`VersionNotFound`, `LackOfInformation`, and their base
   * `pip2archException`). `MissingKey` and `NoVersions` are Python errors the
   * program does not catch, and `InputExhausted` means the console's answers
   * ran out before a listed version was typed.
   */
  datatype Failure =
    | VersionNotFound(version: string)
    | LackOfInformation(message: string)
    | ToolError(message: string)
    | MissingKey(key: string)   // KeyError from `data['classifiers']`
    | NoVersions                // IndexError from `versions[0]` on an empty list
    | InputExhausted            // the answers ran out before a listed version was typed
  {
    /** The failure is one of the program's own exceptions, reported as `Pip2Arch error: ...`. */
    predicate IsToolFailure() {
      VersionNotFound? || LackOfInformation? || ToolError?
    }
  }
}
