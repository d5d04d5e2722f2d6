/**
 * The dependency arrays of the recipe: `render` turns a list of package
 * names into the text between the parentheses of `depends=(...)` and
 * `makedepends=(...)`, after the interpreter's own entry.
 */
module Render {
  import opened Wrappers

  /** `sep.join(items)`. */
  function Join(items: seq<string>, sep: string): string {
    if items == [] then ""
    else if |items| == 1 then items[0]
    else items[0] + sep + Join(items[1..], sep)
  }

  /**
   * `"'" + "' '".join(ds) + "'" if ds else ''`: each name in single quotes,
   * separated by one space, and nothing at all for an empty list.
   */
  function QuoteArray(ds: seq<string>): (r: string)
    ensures r == "" <==> ds == []
  {
    if ds == [] then "" else "'" + Join(ds, "' '") + "'"
  }

  function Quote(d: string): string {
    "'" + d + "'"
  }

  /** The array token by token: one quoted name, then a space before each further one. */
  function Tokens(ds: seq<string>): string {
    if ds == [] then ""
    else if |ds| == 1 then Quote(ds[0])
    else Quote(ds[0]) + " " + Tokens(ds[1..])
  }

  /** Quoting the joined names is the same as quoting each name in order. */
  lemma {:induction false} QuoteArrayIsTokens(ds: seq<string>)
    ensures QuoteArray(ds) == Tokens(ds)
    decreases |ds|
  {
    if |ds| > 1 {
      QuoteArrayIsTokens(ds[1..]);
      QuoteStep(ds[0], Join(ds[1..], "' '"));
    }
  }

  lemma QuoteStep(x: string, j: string)
    ensures "'" + (x + "' '" + j) + "'" == Quote(x) + " " + ("'" + j + "'")
  {
    var lhs := "'" + (x + "' '" + j) + "'";
    var rhs := Quote(x) + " " + ("'" + j + "'");
    assert |lhs| == |rhs|;
    forall i | 0 <= i < |lhs|
      ensures lhs[i] == rhs[i]
    {
      if i == 0 {
      } else if i <= |x| {
        assert lhs[i] == x[i - 1];
      } else if i <= |x| + 3 {
      } else if i < |x| + 4 + |j| {
        assert lhs[i] == j[i - |x| - 4];
      }
    }
  }

  /** Extending a list extends its array by a space and the new names, in order. */
  lemma {:induction false} QuoteArrayAppend(a: seq<string>, b: seq<string>)
    ensures QuoteArray(a + b) ==
      if a == [] then QuoteArray(b)
      else if b == [] then QuoteArray(a)
      else QuoteArray(a) + " " + QuoteArray(b)
  {
    if a == [] {
      assert a + b == b;
    } else if b == [] {
      assert a + b == a;
    } else {
      QuoteArrayIsTokens(a + b);
      QuoteArrayIsTokens(a);
      QuoteArrayIsTokens(b);
      TokensAppend(a, b);
    }
  }

  lemma {:induction false} TokensAppend(a: seq<string>, b: seq<string>)
    requires a != [] && b != []
    ensures Tokens(a + b) == Tokens(a) + " " + Tokens(b)
    decreases |a|
  {
    if |a| == 1 {
      assert (a + b)[1..] == b;
    } else {
      TokensAppend(a[1..], b);
      assert (a + b)[1..] == a[1..] + b;
      SpacedAssoc(Quote(a[0]), Tokens(a[1..]), Tokens(b));
    }
  }

  lemma SpacedAssoc(x: string, y: string, z: string)
    ensures x + " " + (y + " " + z) == (x + " " + y) + " " + z
  {
  }

  // ---------------------------------------------------------------------------
  // Reading an array back

  /** Index of the first `c` in `t`, or `|t|` when there is none. */
  function Find(t: string, c: char): (k: nat)
    ensures k <= |t|
    ensures k < |t| ==> t[k] == c
    ensures forall j :: 0 <= j < k ==> t[j] != c
  {
    if t == [] then 0
    else if t[0] == c then 0
    else 1 + Find(t[1..], c)
  }

  /** Reads `'name' 'name' ...` back into the names; `None` on anything else. */
  function ParseTokens(s: string): Option<seq<string>>
    decreases |s|
  {
    if s == [] || s[0] != '\'' then
      None
    else
      var k := Find(s[1..], '\'');
      if k == |s[1..]| then
        None
      else
        var rest := s[k + 2..];
        if rest == [] then
          Some([s[1..k + 1]])
        else if rest[0] != ' ' then
          None
        else
          match ParseTokens(rest[1..])
          case None => None
          case Some(items) => Some([s[1..k + 1]] + items)
  }

  /** Reads a whole array back; the empty text is the empty list. */
  function ParseArray(s: string): Option<seq<string>> {
    if s == [] then Some([]) else ParseTokens(s)
  }

  /** No name contains a single quote. */
  predicate Unquoted(ds: seq<string>) {
    forall i :: 0 <= i < |ds| ==> '\'' !in ds[i]
  }

  /** Reading a quoted name stops at its closing quote. */
  lemma ClosingQuote(d: string, tail: string)
    requires '\'' !in d
    ensures var s := Quote(d) + tail;
      Find(s[1..], '\'') == |d| && s[1..|d| + 1] == d && s[|d| + 2..] == tail
  {
    var s := Quote(d) + tail;
    assert s[1..] == d + "'" + tail;
    assert s[1..][|d|] == '\'';
    assert forall j :: 0 <= j < |d| ==> s[1..][j] == d[j];
  }

  lemma ParseLast(d: string)
    requires '\'' !in d
    ensures ParseTokens(Quote(d)) == Some([d])
  {
    ClosingQuote(d, "");
    assert Quote(d) + "" == Quote(d);
  }

  lemma ParseMore(d: string, t: string)
    requires '\'' !in d
    ensures ParseTokens(Quote(d) + " " + t) ==
      match ParseTokens(t)
      case None => None
      case Some(items) => Some([d] + items)
  {
    ClosingQuote(d, " " + t);
    assert Quote(d) + " " + t == Quote(d) + (" " + t);
    assert (" " + t)[1..] == t;
  }

  lemma {:induction false} ParseTokensInverse(ds: seq<string>)
    requires ds != [] && Unquoted(ds)
    ensures ParseTokens(Tokens(ds)) == Some(ds)
    decreases |ds|
  {
    assert '\'' !in ds[0];
    if |ds| == 1 {
      ParseLast(ds[0]);
      assert ds == [ds[0]];
    } else {
      assert Unquoted(ds[1..]) by {
        forall i | 0 <= i < |ds[1..]|
          ensures '\'' !in ds[1..][i]
        {
          assert ds[1..][i] == ds[i + 1];
        }
      }
      ParseTokensInverse(ds[1..]);
      ParseMore(ds[0], Tokens(ds[1..]));
      assert [ds[0]] + ds[1..] == ds;
    }
  }

  /** Names without quote characters are read back exactly from their array. */
  lemma ParseArrayInverse(ds: seq<string>)
    requires Unquoted(ds)
    ensures ParseArray(QuoteArray(ds)) == Some(ds)
  {
    if ds != [] {
      QuoteArrayIsTokens(ds);
      ParseTokensInverse(ds);
    }
  }
}
