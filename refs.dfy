/**
 * Splitting a free-text citation "Authors (year) rest" into its parts
 * (lib/firevegrefs.py), and the year rule that the NSW flora reference
 * codes share with it.
 */
module FireVegRefs {
  import opened Text

  /** The text the author words and the year are read from, and the year label. */
  datatype Head = Head(before: string, year: string)

  /**
   * The three cases of the year rule: a personal communication, an
   * unpublished source, or the digits before the first ")". The text before
   * the marker has its commas removed.
   */
  function CitationHead(x: string): Head {
    if Contains(x, "personal communication") then
      Head(Without(Slice(x, 0, Find(x, " personal")), ','), "pers. comm.")
    else if Contains(x, "unpublished") then
      Head(Without(Slice(x, 0, Find(x, "unpublished")), ','), "unpub.")
    else
      var y := Without(Slice(x, 0, IndexOf(x, ')')), ',');
      Head(y, Concat(Runs(y, Digit)))
  }

  /** `x[0:x.find(c)]`: the text before the first `c`, or all but the last character when there is none. */
  function Before(x: string, c: char): (r: string)
    ensures c in x ==> r == x[..IndexOf(x, c)] && c !in r
    ensures c !in x && |x| > 0 ==> r == x[..|x| - 1]
    ensures c !in x && |x| == 0 ==> r == ""
  {
    Slice(x, 0, IndexOf(x, c))
  }

  /** Removing commas does not change which digits a text holds. */
  lemma {:induction false} KeepDigitsWithoutComma(s: string)
    ensures Keep(Without(s, ','), Digit) == Keep(s, Digit)
  {
    if s != [] {
      KeepDigitsWithoutComma(s[1..]);
      var t := if s[0] == ',' then [] else [s[0]];
      assert Without(s, ',') == t + Without(s[1..], ',');
      KeepAppend(t, Without(s[1..], ','), Digit);
    }
  }

  /** `extract_year`. */
  function ExtractYear(x: string): (year: string)
    ensures Contains(x, "personal communication") ==> year == "pers. comm."
    ensures !Contains(x, "personal communication") && Contains(x, "unpublished") ==> year == "unpub."
    ensures !Contains(x, "personal communication") && !Contains(x, "unpublished") ==>
      year == Keep(Before(x, ')'), Digit)
  {
    ConcatRuns(Without(Before(x, ')'), ','), Digit);
    KeepDigitsWithoutComma(Before(x, ')'));
    CitationHead(x).year
  }

  /** `extract_authors`: the text before the first "(". */
  function ExtractAuthors(x: string): (authors: string)
    ensures '(' in x ==> |authors| < |x| && x[..|authors|] == authors && x[|authors|] == '(' && '(' !in authors
    ensures '(' !in x ==> authors == Slice(x, 0, -1)
  {
    Before(x, '(')
  }

  /** `extract_rest`: the text after the first ")", or all of it when there is none. */
  function ExtractRest(x: string): (rest: string)
    ensures ')' in x ==> exists k :: 0 <= k < |x| && x == x[..k] + ")" + rest && ')' !in x[..k]
    ensures ')' !in x ==> rest == x
  {
    var k := IndexOf(x, ')');
    if k >= 0 then assert x == x[..k] + ")" + x[k + 1..]; x[k + 1..] else x
  }

  /**
   * A citation assembled as `authors + "(" + year + ")" + rest`, with no
   * parenthesis in the authors or the year, comes apart into the same authors
   * and rest.
   */
  lemma CitationRoundTrip(authors: string, year: string, rest: string)
    requires '(' !in authors && ')' !in authors && ')' !in year
    ensures ExtractAuthors(authors + "(" + year + ")" + rest) == authors
    ensures ExtractRest(authors + "(" + year + ")" + rest) == rest
  {
    var x := authors + "(" + year + ")" + rest;
    assert x[..|authors|] == authors;
    IndexOfAt(x, '(', |authors|);
    var k := |authors| + 1 + |year|;
    assert x[..k] == authors + "(" + year;
    assert ')' !in authors + "(" + year;
    IndexOfAt(x, ')', k);
    assert x[k + 1..] == rest;
  }
}
