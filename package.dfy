/**
 * The `Package` object: `get_package` fills its fields in step by step from
 * the index's answers, `add_depends` and `add_makedepends` extend its
 * dependency lists, and `render` formats those lists for the recipe.
 */
module Pip2Arch {
  import opened Wrappers
  import opened Registry
  import opened Derivation
  import opened Render

  /**
   * The object's attributes at one moment. An attribute that has not been
   * assigned yet (the object has no such attribute) is `None`.
   */
  datatype Snapshot = Snapshot(
    name: Option<string>,
    outname: Option<string>,
    version: Option<string>,
    pyversion: Option<string>,
    description: Option<string>,
    url: Option<string>,
    downloadUrl: Option<string>,
    md5: Option<string>,
    license: Option<string>,
    distributePackage: Option<string>,
    depends: seq<string>,
    makedepends: seq<string>,
    setupArgs: string,
    dataReceived: bool)
  {
    /** Every attribute the recipe template reads exists. */
    predicate HasRecipeFields() {
      name.Some? && outname.Some? && version.Some? && pyversion.Some? && description.Some?
      && url.Some? && downloadUrl.Some? && md5.Some? && license.Some? && distributePackage.Some?
    }
  }

  /** A fresh object: only the class-level defaults exist. */
  const INITIAL := Snapshot(None, None, None, None, None, None, None, None, None, None, [], [], "", false)

  /**
   * What lines 132-162 of `get_package` leave behind, from state `s` to state
   * `t` with failure `err`: the build-time package is always assigned; a
   * missing `classifiers` key (needed only without an explicit output name)
   * stops there; otherwise the output name and the license are assigned and
   * the metadata is copied as `Copied` says.
   */
  ghost predicate Derived(s: Snapshot, t: Snapshot, err: Option<Failure>, name: string,
                          outname: Option<string>, pyversion: string, data: ReleaseData, src: Source)
  {
    var s1 := s.(distributePackage := Some(Distribute(pyversion)));
    match DeriveOutname(name, outname, pyversion, data.classifiers)
    case Failure(e) => err == Some(e) && t == s1
    case Success(out) =>
      Copied(s1.(outname := Some(out), license := Some(DeriveLicense(data.license))), t, err, data, src)
  }

  /**
   * What lines 153-162 leave behind: `name`, `summary` and the rest are
   * copied, a missing `name` or `summary` stopping the copy where it occurs,
   * and `data_received` is set last.
   */
  ghost predicate Copied(s: Snapshot, t: Snapshot, err: Option<Failure>, data: ReleaseData, src: Source)
  {
    if data.name.None? then
      err == Some(ToolError(NEEDED_INFORMATION)) && t == s
    else if data.summary.None? then
      err == Some(ToolError(NEEDED_INFORMATION)) && t == s.(name := data.name)
    else
      err.None? &&
      t == s.(name := data.name, description := data.summary,
              downloadUrl := Some(src.url.GetOr("")), md5 := Some(src.md5.GetOr("")),
              url := Some(data.homePage.GetOr("")),
              depends := data.requirements.GetOr([]), dataReceived := true)
  }

  class Package {
    var name: Option<string>
    var outname: Option<string>
    var version: Option<string>
    var pyversion: Option<string>
    var description: Option<string>
    var url: Option<string>
    var downloadUrl: Option<string>
    var md5: Option<string>
    var license: Option<string>
    var distributePackage: Option<string>
    var depends: seq<string>
    var makedepends: seq<string>
    var setupArgs: string
    var dataReceived: bool

    function State(): Snapshot
      reads this
    {
      Snapshot(name, outname, version, pyversion, description, url, downloadUrl, md5,
               license, distributePackage, depends, makedepends, setupArgs, dataReceived)
    }

    /**
     * `data_received` is set only once every field the recipe needs exists:
     * the program renders the recipe only when the flag is set (lines 277-280).
     */
    ghost predicate Valid()
      reads this
    {
      dataReceived ==> State().HasRecipeFields()
    }

    constructor ()
      ensures Valid() && State() == INITIAL
    {
      name, outname, version, pyversion, description := None, None, None, None, None;
      url, downloadUrl, md5, license, distributePackage := None, None, None, None, None;
      depends, makedepends, setupArgs, dataReceived := [], [], "", false;
    }

    /**
     * `get_package(name, outname, pyversion, version)`, with the index's
     * answers in `reg` and the console's in `answers`. `err` is the failure
     * raised, if any. The object keeps every attribute assigned before the
     * failure, so each step's failure is stated with the state it leaves.
     */
    method GetPackage(name: string, outname: Option<string>, pyversion: string,
                      version: Option<string>, reg: Responses, answers: seq<string>)
      returns (err: Option<Failure>)
      requires Valid() && reg.releaseData.WellFormed()
      modifies this
      ensures Valid()
      ensures dataReceived == (old(dataReceived) || err.None?)
      ensures err.None? ==> State().HasRecipeFields()
      // resolving the version fails: nothing is assigned
      ensures var rv := ResolveVersion(version, reg.releases, answers);
        rv.Failure? ==> err == Some(rv.error) && State() == old(State())
      // the sources cannot be chosen: only the version and interpreter are assigned
      ensures var rv := ResolveVersion(version, reg.releases, answers);
        rv.Success? ==>
        var cs := ChooseSource(reg.releaseData, reg.releaseUrls, rv.value);
        cs.Failure? ==>
          err == Some(cs.error)
          && State() == old(State()).(version := Some(rv.value), pyversion := Some(pyversion))
      // otherwise the fields are derived from the metadata and the chosen source
      ensures var rv := ResolveVersion(version, reg.releases, answers);
        rv.Success? ==>
        var cs := ChooseSource(reg.releaseData, reg.releaseUrls, rv.value);
        cs.Success? ==>
          Derived(old(State()).(version := Some(rv.value), pyversion := Some(pyversion)),
                  State(), err, name, outname, pyversion, reg.releaseData, cs.value)
    {
      var resolved := ResolveVersion(version, reg.releases, answers);
      if resolved.Failure? {
        return Some(resolved.error);
      }
      var v := resolved.value;
      this.version := Some(v);
      this.pyversion := Some(pyversion);

      var source := SelectSource(reg.releaseData, reg.releaseUrls, v);
      if source.Failure? {
        return Some(source.error);
      }
      err := DeriveFields(name, outname, pyversion, reg.releaseData, source.value);
    }

    /**
     * The rest of `get_package`: the build-time package, the output name, the
     * license, then the fields copied from the metadata and the source, and
     * last `data_received`.
     */
    method DeriveFields(name: string, outname: Option<string>, pyversion: string,
                        data: ReleaseData, src: Source)
      returns (err: Option<Failure>)
      requires Valid() && this.version.Some? && this.pyversion.Some? && data.WellFormed()
      modifies this
      ensures Valid()
      ensures dataReceived == (old(dataReceived) || err.None?)
      ensures Derived(old(State()), State(), err, name, outname, pyversion, data, src)
    {
      this.distributePackage := Some(Distribute(pyversion));
      var derived := DeriveOutname(name, outname, pyversion, data.classifiers);
      if derived.Failure? {
        return Some(derived.error);
      }
      this.outname := Some(derived.value);
      this.license := Some(DeriveLicense(data.license));
      err := CopyMetadata(data, src);
    }

    /** Lines 153-162: the fields copied from the metadata and the source. */
    method CopyMetadata(data: ReleaseData, src: Source) returns (err: Option<Failure>)
      requires Valid() && data.WellFormed()
      requires this.version.Some? && this.pyversion.Some? && this.outname.Some?
      requires this.license.Some? && this.distributePackage.Some?
      modifies this
      ensures Valid()
      ensures dataReceived == (old(dataReceived) || err.None?)
      ensures Copied(old(State()), State(), err, data, src)
    {
      if data.name.None? {
        return Some(ToolError(NEEDED_INFORMATION));
      }
      this.name := data.name;
      if data.summary.None? {
        return Some(ToolError(NEEDED_INFORMATION));
      }
      this.description := data.summary;
      Complete(src, data.homePage, data.requirements);
      err := None;
    }

    /**
     * Lines 157-162: the source's URL and checksum, the home page and the
     * requirements are copied, and the object is marked complete.
     */
    method Complete(src: Source, homePage: Option<string>, requirements: Option<seq<string>>)
      requires name.Some? && outname.Some? && version.Some? && pyversion.Some? && description.Some?
      requires license.Some? && distributePackage.Some?
      modifies this
      ensures Valid()
      ensures State() == old(State()).(downloadUrl := Some(src.url.GetOr("")), md5 := Some(src.md5.GetOr("")),
                                        url := Some(homePage.GetOr("")),
                                        depends := requirements.GetOr([]), dataReceived := true)
    {
      this.downloadUrl := Some(src.url.GetOr(""));
      this.md5 := Some(src.md5.GetOr(""));
      this.url := Some(homePage.GetOr(""));
      this.depends := requirements.GetOr([]);
      this.dataReceived := true;
    }

    /** `add_depends`: the names go after the existing ones, duplicates and all. */
    method AddDepends(ds: seq<string>)
      requires Valid()
      modifies this
      ensures Valid()
      ensures State() == old(State()).(depends := old(depends) + ds)
    {
      depends := depends + ds;
    }

    /** `add_makedepends`: the same for the build-time list. */
    method AddMakedepends(ds: seq<string>)
      requires Valid()
      modifies this
      ensures Valid()
      ensures State() == old(State()).(makedepends := old(makedepends) + ds)
    {
      makedepends := makedepends + ds;
    }

    /**
     * The two dependency arrays `render` substitutes into the recipe. Names
     * without quote characters can be read back from them exactly.
     */
    method RenderArrays() returns (dependsArray: string, makedependsArray: string)
      ensures dependsArray == QuoteArray(depends) && makedependsArray == QuoteArray(makedepends)
      ensures Unquoted(depends) ==> ParseArray(dependsArray) == Some(depends)
      ensures Unquoted(makedepends) ==> ParseArray(makedependsArray) == Some(makedepends)
    {
      dependsArray := QuoteArray(depends);
      makedependsArray := QuoteArray(makedepends);
      if Unquoted(depends) {
        ParseArrayInverse(depends);
      }
      if Unquoted(makedepends) {
        ParseArrayInverse(makedepends);
      }
    }
  }
}
