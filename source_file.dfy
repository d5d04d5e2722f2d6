/**
 * The archive-name test `SOURCEFILE_TYPE_RE`: the pattern `.*\.(tar|zip|gz|z|bz2?|xz)`
 * compiled with IGNORECASE and applied with `re.match`. `re.match` anchors the
 * pattern at the start of the name but not at its end, and `.` does not match a
 * newline, so a name is accepted when, somewhere before its first newline, a dot
 * is followed by one of the extensions, whatever comes after it.
 */
module SourceFile {
  import opened Text

  /**
   * `t` begins with `lit`, ignoring case. Every letter of the extensions whose case
   * matters after the simplification proved in `ExtensionMatches` (t, a, r, g,
   * z, b, x) has no non-ASCII character folding onto it, so ASCII folding is
   * exact here.
   */
  predicate StartsWithFolded(t: string, lit: string) {
    |lit| <= |t| && forall k :: 0 <= k < |lit| ==> LowerChar(t[k]) == lit[k]
  }

  /**
   * The group matches at the start of `t`. The alternatives `zip` and `bz2` are
   * subsumed by `z` and `bz`, which the postcondition states.
   */
  function ExtensionMatches(t: string): (r: bool)
    ensures r <==> StartsWithFolded(t, "tar") || StartsWithFolded(t, "gz")
                   || StartsWithFolded(t, "z") || StartsWithFolded(t, "bz")
                   || StartsWithFolded(t, "xz")
  {
    // the group `(tar|zip|gz|z|bz2?|xz)`, with `bz2?` spelled out
    StartsWithFolded(t, "tar") || StartsWithFolded(t, "zip") || StartsWithFolded(t, "gz")
    || StartsWithFolded(t, "z") || StartsWithFolded(t, "bz2") || StartsWithFolded(t, "bz")
    || StartsWithFolded(t, "xz")
  }

  /** The regular expression matches with its `\.` at index `i` of `s`. */
  predicate MatchAt(s: string, i: int) {
    0 <= i < |s| && '\n' !in s[..i] && s[i] == '.' && ExtensionMatches(s[i + 1..])
  }

  /** Tries every position for `\.` from `i` on, stopping at the first newline. */
  function MatchFrom(s: string, i: nat): bool
    requires i <= |s|
    decreases |s| - i
  {
    if i == |s| || s[i] == '\n' then
      false
    else if s[i] == '.' && ExtensionMatches(s[i + 1..]) then
      true
    else
      MatchFrom(s, i + 1)
  }

  /** Started after a newline-free prefix, the scan finds a match exactly when one exists further on. */
  lemma {:induction false} MatchFromFindsMatch(s: string, i: nat)
    requires i <= |s| && '\n' !in s[..i]
    ensures MatchFrom(s, i) <==> exists j :: i <= j && MatchAt(s, j)
    decreases |s| - i
  {
    if i == |s| {
    } else if s[i] == '\n' {
      assert forall j :: i < j <= |s| ==> s[..j][i] == '\n';
    } else if s[i] == '.' && ExtensionMatches(s[i + 1..]) {
      assert MatchAt(s, i);
    } else {
      assert s[..i + 1] == s[..i] + [s[i]];
      MatchFromFindsMatch(s, i + 1);
    }
  }

  /** `SOURCEFILE_TYPE_RE.match(s) is not None`. */
  function IsSourceFile(s: string): bool {
    MatchFrom(s, 0)
  }

  /** The scan accepts a name exactly when the pattern matches it at some dot. */
  lemma IsSourceFileMatches(s: string)
    ensures IsSourceFile(s) <==> exists i :: MatchAt(s, i)
  {
    MatchFromFindsMatch(s, 0);
  }

  /** A match at one dot is enough for the name to be accepted. */
  lemma AcceptedAt(s: string, i: int)
    requires MatchAt(s, i)
    ensures IsSourceFile(s)
  {
    IsSourceFileMatches(s);
  }

  /** The five simplified alternatives, after the dot at index `i`. */
  predicate DotExtensionAt(s: string, i: int) {
    0 <= i < |s| && s[i] == '.' &&
    (StartsWithFolded(s[i + 1..], "tar") || StartsWithFolded(s[i + 1..], "gz")
     || StartsWithFolded(s[i + 1..], "z") || StartsWithFolded(s[i + 1..], "bz")
     || StartsWithFolded(s[i + 1..], "xz"))
  }

  /**
   * For a name without a newline: accepted exactly when some dot is followed,
   * ignoring case, by `tar`, `gz`, `z`, `bz` or `xz`.
   */
  lemma AcceptedIffDotExtension(s: string)
    requires '\n' !in s
    ensures IsSourceFile(s) <==> exists i :: DotExtensionAt(s, i)
  {
    IsSourceFileMatches(s);
    if exists i :: DotExtensionAt(s, i) {
      var i :| DotExtensionAt(s, i);
      assert forall k :: 0 <= k < i ==> s[..i][k] == s[k];
      assert MatchAt(s, i);
    }
    if IsSourceFile(s) {
      var i :| MatchAt(s, i);
      assert DotExtensionAt(s, i);
    }
  }

  lemma TarballAccepted()
    ensures IsSourceFile("pkg-1.0.tar.gz")
  {
    var s := "pkg-1.0.tar.gz";
    assert s[8..] == "tar.gz";
    assert MatchAt(s, 7);
    AcceptedAt(s, 7);
  }

  lemma UpperCaseAccepted()
    ensures IsSourceFile("Pkg-2.1.TAR.BZ2")
  {
    var s := "Pkg-2.1.TAR.BZ2";
    assert s[8..] == "TAR.BZ2";
    assert LowerChar('T') == 't' && LowerChar('A') == 'a' && LowerChar('R') == 'r';
    assert MatchAt(s, 7);
    AcceptedAt(s, 7);
  }

  /** No end anchor: a suffix that merely begins like an extension is accepted. */
  lemma PrefixOnlyAccepted()
    ensures IsSourceFile("pkg.zipped")
  {
    var s := "pkg.zipped";
    assert s[4..] == "zipped";
    assert MatchAt(s, 3);
    AcceptedAt(s, 3);
  }

  /** A wheel is rejected. */
  lemma WheelRejected()
    ensures !IsSourceFile("pkg.whl")
  {
    var s := "pkg.whl";
    IsSourceFileMatches(s);
    forall i | 0 <= i < |s|
      ensures !MatchAt(s, i)
    {
      if i == 3 {
        assert s[4..][0] == 'w';
      } else {
        assert s[i] != '.';
      }
    }
  }

  /** `.` never matches a newline, so an extension after one is not seen. */
  lemma NewlineStopsMatch()
    ensures !IsSourceFile("pkg\n.tar")
  {
    var s := "pkg\n.tar";
    assert s[3] == '\n';
  }
}
