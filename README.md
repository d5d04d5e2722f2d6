# pip2arch: a verified model of the PKGBUILD derivation

pip2arch turns the Python package index's answers about a package into an
Arch Linux build recipe (a PKGBUILD). This project models the part of
`pip2arch.py` that decides what goes into that recipe:

- the archive-name test `SOURCEFILE_TYPE_RE`;
- `Package.get_package`, which does four things:
  - picks the version;
  - checks the metadata and the artifact list in a fixed order;
  - selects the source archive (the last matching artifact wins);
  - derives the build-time package, the output name, the license and the copied fields, setting `data_received` last;
- the membership rule of `choose_version`;
- `add_depends` and `add_makedepends`;
- the quoting of the two dependency arrays in `render`.

The index's answers are plain values, not network calls. Those values are the
release list, the release metadata and the artifact list (`Registry.Responses`).
The console's answers are a sequence of strings.

Modules:

- `Wrappers`: `Option` and `Result`.
- `Text`: ASCII lower-casing and substring search.
- `SourceFile`: the archive-name test.
- `Registry`: the index's answers, the error messages and the failures the program raises.
- `Derivation`: the decisions of `get_package` as functions, plus the artifact-selection loop as a method.
- `Render`: the dependency arrays. It includes a parser that reads an array back, proving the quoting loses nothing for names without a single quote. A name containing one is not recovered: `["a' 'b"]` and `["a", "b"]` give the same array.
- `Pip2Arch`: the `Package` class, whose methods assign its fields step by step in the program's order. Its source selection uses the corrected no-match message (see "## Findings").

Two facts about the code that are easy to misread:

- `get_package` fails when *either* `name` or `summary` is missing from the metadata (lines 152-160). When only `summary` is missing, `name` has already been assigned.
- `render` emits the empty string for an empty dependency list (lines 221-222), so the recipe line reads `depends=('python' )`.

## Model

| member | source | states |
|---|---|---|
| SourceFile.ExtensionMatches | pip2arch.py:47 | the seven alternatives of the group, ignoring case, accept exactly what `tar`, `gz`, `z`, `bz`, `xz` accept (`zip` and `bz2` are subsumed) |
| SourceFile.MatchFromFindsMatch | pip2arch.py:47 | scanning from a newline-free prefix finds a match iff the pattern matches with its dot at some later position |
| SourceFile.IsSourceFileMatches | pip2arch.py:47 | `re.match` succeeds iff there is a dot, preceded by no newline, followed by one of the extensions |
| SourceFile.MatchFrom | pip2arch.py:47 | the regex scan: tries each position for the `\.` until the first newline; no contract of its own, characterised by `MatchFromFindsMatch` |
| SourceFile.IsSourceFile | pip2arch.py:47 | `SOURCEFILE_TYPE_RE.match(s) is not None`; no contract of its own, characterised in both directions by `IsSourceFileMatches` and `AcceptedIffDotExtension` |
| SourceFile.AcceptedAt | pip2arch.py:47 | one matching dot is enough for acceptance |
| SourceFile.AcceptedIffDotExtension | pip2arch.py:47 | a name without a newline is accepted iff some `.` is followed, ignoring case, by `tar`, `gz`, `z`, `bz` or `xz` |
| SourceFile.TarballAccepted | pip2arch.py:47 | `pkg-1.0.tar.gz` is accepted |
| SourceFile.UpperCaseAccepted | pip2arch.py:47 | `Pkg-2.1.TAR.BZ2` is accepted (case is ignored) |
| SourceFile.PrefixOnlyAccepted | pip2arch.py:47 | `pkg.zipped` is accepted, as there is no end anchor |
| SourceFile.WheelRejected | pip2arch.py:47 | `pkg.whl` is rejected |
| SourceFile.NewlineStopsMatch | pip2arch.py:47 | an extension after a newline is not seen, since `.` does not match a newline |
| Text.Lower | pip2arch.py:136-144 | `.lower()` keeps the length and lower-cases each character |
| Text.LowerIdempotent | pip2arch.py:136-144 | lower-casing twice is lower-casing once |
| Text.LowerConcat | pip2arch.py:140-141 | lower-casing distributes over concatenation |
| Text.Contains | pip2arch.py:138 | true iff the pattern occurs at some index of the string |
| Derivation.ChooseVersion | pip2arch.py:203-212 | the membership rule of the prompt loop: the answer returned is one of the versions; there is one iff some answer is listed; it is the first listed answer (the prompt itself is not reachable on Python 3, see "## Left out") |
| Derivation.ResolveVersion | pip2arch.py:65-73 | an explicit version is taken verbatim; a single release is taken as is; several go through the membership rule of `choose_version`, so the result is the first answer that is a release, and there is one iff some answer is; no release fails on `versions[0]` |
| Derivation.LastMatch | pip2arch.py:121-125 | no result iff no artifact's file name matches; otherwise the result is the last matching artifact |
| Derivation.LastMatchFront | pip2arch.py:121-125 | dropping a non-matching last artifact changes neither "none matches" nor which artifact is last to match |
| Derivation.SelectArtifact | pip2arch.py:121-125 | the loop that overwrites its choice on every match ends with `LastMatch` |
| Derivation.SourceOf | pip2arch.py:109-128 | errors come in order: empty metadata gives `VersionNotFound`; then an empty artifact list falls back to `download_url` (no checksum) or gives `LackOfInformation`; then the last matching artifact is the source, or the no-match failure |
| Derivation.ChooseSourceAsWritten | pip2arch.py:121-128 | as written, a non-empty list with no match fails with an exception that has no message |
| Derivation.ChooseSource | pip2arch.py:109-128 | every failure is one of the program's own exceptions; every `LackOfInformation` and tool failure carries a non-empty message, and `VersionNotFound` carries the version, from which line 110 builds its message |
| Derivation.SelectSource | pip2arch.py:109-128 | the step-by-step checks and the selection loop compute `ChooseSource`, the corrected selection: on no match it raises with the intended message where the program's bare raise has none |
| Derivation.BareRaiseHasNoMessage | pip2arch.py:127-128 | for a wheel-only artifact list, the as-written failure has an empty message and the corrected one has the intended message |
| Derivation.DownloadUrlFallback | pip2arch.py:111-117 | with no artifacts, an archive `download_url` becomes the source, with no checksum |
| Derivation.LastMatchWins | pip2arch.py:121-125 | of two matching artifacts, the later one is chosen |
| Derivation.Distribute | pip2arch.py:132-133 | `python3` iff the interpreter label is `python`, otherwise `python2-distribute` |
| Derivation.IsLibraryClassifier | pip2arch.py:138 | `re.search(r'Librar(ies\|y)', item)`: the classifier contains `Library` or `Libraries`, case-sensitively; a predicate, characterised through `Text.Contains` |
| Derivation.AnyLibrary | pip2arch.py:138 | the `any(...)` over the classifiers: some classifier mentions a library; a predicate with no contract of its own, used by `DeriveOutname` |
| Derivation.DeriveOutname | pip2arch.py:136-144 | an explicit name wins, lower-cased; without it, a missing `classifiers` key is an error; a library classifier gives lower(pyversion) + `-` + lower(name); otherwise lower(name); the result is always lower-case |
| Derivation.PrefixedLower | pip2arch.py:140-141 | lower-casing the prefixed name is lower-casing each part around the hyphen |
| Derivation.DeriveLicense | pip2arch.py:147-150 | absent key gives `UNKNOWN`; over ten characters gives `CUSTOM`; anything else is kept verbatim, the empty string included; the label never exceeds ten characters |
| Pip2Arch.Package.constructor | pip2arch.py:57-63 | a fresh object has only the class defaults: empty lists, empty setup arguments, `data_received` false |
| Pip2Arch.Package.GetPackage | pip2arch.py:65-162 | a version failure assigns nothing; a source failure leaves only the version and interpreter assigned; otherwise the fields are derived as `Derived` says; `data_received` becomes true exactly when no failure occurs, and then every field the recipe reads exists; the validity invariant is kept. The no-match failure carries the corrected message (`ChooseSource`), not the program's empty one |
| Pip2Arch.Package.DeriveFields | pip2arch.py:132-162 | the build-time package is always assigned; a missing `classifiers` key stops there; otherwise the output name and license are assigned and the metadata copied |
| Pip2Arch.Package.CopyMetadata | pip2arch.py:152-162 | a missing `name` or `summary` raises the tool error, keeping what was assigned before it; otherwise every field is copied with its default and `depends` is replaced by `requires` |
| Pip2Arch.Package.Complete | pip2arch.py:155-162 | URL and checksum default to the empty string, the home page to the empty string and `depends` to the empty list, then `data_received` is set; nothing else changes |
| Pip2Arch.Package.AddDepends | pip2arch.py:214-215 | the names are appended in order, duplicates kept; every other field, `makedepends` included, is unchanged |
| Pip2Arch.Package.AddMakedepends | pip2arch.py:217-218 | the names are appended in order, duplicates kept; every other field, `depends` included, is unchanged |
| Pip2Arch.Package.RenderArrays | pip2arch.py:220-222 | the two arrays are the quoted lists, and names without quote characters are read back from them exactly |
| Render.Join | pip2arch.py:221-222 | `"' '".join(ds)`; no contract of its own, characterised through `QuoteArrayIsTokens` |
| Render.QuoteArray | pip2arch.py:221-222 | the array is empty iff the list is |
| Render.QuoteArrayIsTokens | pip2arch.py:221-222 | the array is each name in single quotes, in order, separated by single spaces |
| Render.QuoteArrayAppend | pip2arch.py:214-222 | the array of an extended list: when both the old list and the new names are non-empty, the old array, one space, and the new names' array; when either is empty, the other one's array alone (so appending to an empty `depends` gives no leading space) |
| Render.TokensAppend | pip2arch.py:221-222 | the quoted tokens of a concatenation are the two token strings joined by one space |
| Render.ParseTokensInverse | pip2arch.py:221-222 | reading the tokens back yields the names, for names without quotes |
| Render.ParseArrayInverse | pip2arch.py:221-222 | reading an array back yields exactly the list it was made from, for names without quotes |

## Left out

- The XML-RPC client and its calls (`package_releases`, `release_data`, `release_urls`): their results are the input `Registry.Responses`.
- The retry loops with `time.sleep`: they are network fault handling. The path where every attempt fails, which leaves `data` unbound, is not modelled.
- Interactive search and its listing (`search`): console I/O over a remote call.
- `choose_version`'s console: the answers are a finite sequence, and the printed prompts are left out.
- Derivation.ResolveVersion: gives the membership rule of `choose_version`'s prompt loop, not its behaviour as written. The f-strings at lines 83, 86, 100 and 103 need Python 3.6 or later. On Python 3 the `try` at lines 14-18 takes its `NameError` branch, so `raw_input` is never bound and line 206 raises `NameError` before any prompt. Even where `raw_input` exists, the recursion at line 212 ends with `RecursionError` after about a thousand rejected answers. `InputExhausted` stands for "no listed answer in the given answers" and does not model either error.
- Pip2Arch.Package.GetPackage: selects the source with the corrected `ChooseSource`. On a non-empty artifact list with no matching file name it fails with `ToolError("Selected package version had no suitable sources")`, where the program raises a `pip2archException` with no message and exits with `Pip2Arch error: ` (line 287). The as-written behaviour is `Derivation.ChooseSourceAsWritten`.
- Derivation.SelectSource: computes the corrected `ChooseSource`, for the same reason as `GetPackage`.
- `ReleaseData.WellFormed`: only dictionaries whose `others` set avoids the seven keys the program reads are passed to `GetPackage`; other values of the datatype encode no dictionary.
- Uncaught Python errors are modelled as named failures:
  - `NoVersions` stands for the `IndexError` on an empty release list;
  - `MissingKey("classifiers")` stands for the `KeyError` on line 138.
- The recipe template, `datetime.date.today()` and every other substitution in `render`: plain text formatting. Only the two dependency arrays are modelled.
- argparse, logging, file writing and `sys.exit`: command-line plumbing.
- The class-level `depends` and `makedepends` lists are shared by all instances, and `+=` extends them in place. The model gives each object its own lists; the program creates one object.
- The metadata is assumed to have the documented value types: strings, and string lists for `classifiers` and `requires`. A wrongly typed value, for example a `None` license, is not modelled.
- Text.Lower: lower-cases ASCII letters only. `str.lower()` also folds non-ASCII letters.
- SourceFile.StartsWithFolded: compares with ASCII folding. That is not exact for every literal: under IGNORECASE, U+0130 and U+0131 also match the `i` of `zip`. It is exact for t, a, r, g, z, b and x, the letters left after `ExtensionMatches` reduces the group to `tar`, `gz`, `z`, `bz` and `xz`. Whole-name acceptance is therefore exact, because `z` subsumes `zip`.

## Findings

| source | as written | input that shows it | evidently intended | confidence | as-written member | corrected member |
|---|---|---|---|---|---|---|
| pip2arch.py:127-128 | `raise pip2archException` ends the statement; the message on the next line is an unreachable expression statement after the `raise`, so the exception has no message | metadata present, artifact list `[pkg.whl]` with no matching file name | raise with the message "Selected package version had no suitable sources" | not executed | Derivation.ChooseSourceAsWritten (shown by Derivation.BareRaiseHasNoMessage) | Derivation.ChooseSource |
