/**
 * Reference codes of the NSW Flora Fire Response Database workbook
 * (lib/nswfireflora_util.py): building a short author/year code from a
 * citation, and resolving the codes a cell refers to (through a hyperlink to
 * the References sheet or as parenthesised text) against three lookup tables.
 */
module NswReferences {
  import opened Wrappers
  import opened Text
  import opened PyValues
  import FireVegRefs
  import Seqs

  /** Reference codes are cut to this many characters. */
  const MaxCodeLength: nat := 50

  /** `filter(r.match, ws)`: the words starting with a capital followed by a lower-case letter, in order. */
  function CapitalisedWords(ws: seq<string>): (r: seq<string>)
    ensures |r| <= |ws|
    ensures forall w :: w in r <==> w in ws && StartsCapitalised(w)
  {
    if ws == [] then []
    else (if StartsCapitalised(ws[0]) then [ws[0]] else []) + CapitalisedWords(ws[1..])
  }

  /** The filter keeps order: the words of two texts in a row are those of the first, then those of the second. */
  lemma {:induction false} CapitalisedWordsAppend(a: seq<string>, b: seq<string>)
    ensures CapitalisedWords(a + b) == CapitalisedWords(a) + CapitalisedWords(b)
  {
    if a != [] {
      assert (a + b)[0] == a[0] && (a + b)[1..] == a[1..] + b;
      CapitalisedWordsAppend(a[1..], b);
    } else {
      assert a + b == b;
    }
  }

  /** One word is kept exactly when it starts with a capital followed by a lower-case letter. */
  lemma CapitalisedWord(w: string)
    ensures CapitalisedWords([w]) == if StartsCapitalised(w) then [w] else []
  {
    assert [w][1..] == [];
  }

  /** The author words of a citation: the capitalised words of the text before its year marker. */
  function RefCodeAuthors(x: string): seq<string> {
    CapitalisedWords(Words(FireVegRefs.CitationHead(x).before))
  }

  /** `create_ref_code`: "Authors year", at most 50 characters, with the year rule of `extract_year`. */
  function CreateRefCode(x: string): (code: string)
    ensures |code| <= MaxCodeLength
    ensures var full := Join(RefCodeAuthors(x), " ") + " " + FireVegRefs.ExtractYear(x);
      && |code| <= |full| && code == full[..|code|]
      && (|full| <= MaxCodeLength ==> code == full)
      && (|full| > MaxCodeLength ==> |code| == MaxCodeLength)
  {
    var h := FireVegRefs.CitationHead(x);
    Truncate(Join(CapitalisedWords(Words(h.before)), " ") + " " + h.year, MaxCodeLength)
  }

  /** `create_ref_code_RP`: "RP " in front unless the text holds the literal "^RFA", then cut to 50. */
  function CreateRefCodeRP(x: string): (code: string)
    ensures |code| <= MaxCodeLength
    ensures var full := if Contains(x, "^RFA") then x else "RP " + x;
      && |code| <= |full| && code == full[..|code|]
      && |code| == (if |full| <= MaxCodeLength then |full| else MaxCodeLength)
  {
    Truncate(if Contains(x, "^RFA") then x else "RP " + x, MaxCodeLength)
  }

  // ---------------------------------------------------------------------
  // Lookup tables

  /** A row of a reference table: its `refcode` and its `refstring`. */
  datatype RefEntry = RefEntry(code: Value, refstring: string)

  /** The numbered table (`ref2`) and the two tag tables (`ref3`, `ref4`). */
  datatype RefTables = RefTables(numbered: seq<RefEntry>, tagsA: seq<RefEntry>, tagsB: seq<RefEntry>)

  /** `[e['refstring'] for e in filter(lambda x: x['refcode'] == key, table)]`. */
  function Matches(table: seq<RefEntry>, key: Value): (r: seq<string>)
    ensures |r| <= |table|
    ensures forall s :: s in r <==> exists e :: e in table && e.code == key && e.refstring == s
  {
    if table == [] then []
    else (if table[0].code == key then [table[0].refstring] else []) + Matches(table[1..], key)
  }

  /** `re.sub("[abc]$", "", code.strip(" "))`. */
  function NormalCode(raw: string): string {
    DropAbc(Strip(raw, Blank))
  }

  /**
   * The citations one code resolves to: a numeric code in the numbered
   * table, any other code in the first tag table and then in the second.
   */
  function ResolveCode(raw: string, t: RefTables): (r: seq<string>)
    ensures var c := NormalCode(raw);
      forall s :: s in r <==>
        if IsNumeric(c) then exists e :: e in t.numbered && e.code == Int(ParseNat(c)) && e.refstring == s
        else exists e :: (e in t.tagsA || e in t.tagsB) && e.code == Str(c) && e.refstring == s
  {
    var c := NormalCode(raw);
    if IsNumeric(c) then Matches(t.numbered, Int(ParseNat(c)))
    else Matches(t.tagsA, Str(c)) + Matches(t.tagsB, Str(c))
  }

  /** The concatenation of a list of lists, built from the last list backwards. */
  function Flatten<T>(xs: seq<seq<T>>): seq<T> {
    if xs == [] then [] else Flatten(xs[..|xs| - 1]) + xs[|xs| - 1]
  }

  /** An element is in the concatenation exactly when it is in one of the lists. */
  lemma {:induction false} FlattenMembers<T>(xs: seq<seq<T>>, x: T)
    ensures x in Flatten(xs) <==> exists i :: 0 <= i < |xs| && x in xs[i]
  {
    if xs != [] {
      var n := |xs| - 1;
      FlattenMembers(xs[..n], x);
      if x in Flatten(xs[..n]) {
        var i :| 0 <= i < n && x in xs[..n][i];
        assert xs[i] == xs[..n][i];
      }
      if i :| 0 <= i < |xs| && x in xs[i] {
        if i < n {
          assert xs[..n][i] == xs[i];
        }
      }
    }
  }

  /** Concatenating one more list at the end. */
  lemma FlattenSnoc<T>(xs: seq<seq<T>>, y: seq<T>)
    ensures Flatten(xs + [y]) == Flatten(xs) + y
  {
    assert (xs + [y])[..|xs|] == xs;
  }

  /** What each code of a list resolves to. */
  function Resolutions(codes: seq<string>, t: RefTables): (rs: seq<seq<string>>)
    ensures |rs| == |codes|
    ensures forall i :: 0 <= i < |codes| ==> rs[i] == ResolveCode(codes[i], t)
  {
    seq(|codes|, i requires 0 <= i < |codes| => ResolveCode(codes[i], t))
  }

  /** The citations of a list of codes, concatenated in code order. */
  function Resolved(codes: seq<string>, t: RefTables): seq<string> {
    Flatten(Resolutions(codes, t))
  }

  /** Resolving one more code appends its citations. */
  lemma ResolvedSnoc(codes: seq<string>, c: string, t: RefTables)
    ensures Resolved(codes + [c], t) == Resolved(codes, t) + ResolveCode(c, t)
  {
    Seqs.Snoc(codes, c);
    Seqs.Pointwise(Resolutions(codes + [c], t), Resolutions(codes, t) + [ResolveCode(c, t)]);
    FlattenSnoc(Resolutions(codes, t), ResolveCode(c, t));
  }

  /** A citation is resolved from a list of codes exactly when one of the codes resolves to it. */
  lemma ResolvedMembers(codes: seq<string>, t: RefTables, s: string)
    ensures s in Resolved(codes, t) <==> exists i :: 0 <= i < |codes| && s in ResolveCode(codes[i], t)
  {
    FlattenMembers(Resolutions(codes, t), s);
  }

  /** The body of that loop: the table a code is looked up in depends on whether it is numeric. */
  method ResolveOne(refcode: string, t: RefTables) returns (found: seq<string>)
    ensures found == ResolveCode(refcode, t)
  {
    var code := NormalCode(refcode);
    if IsNumeric(code) {
      found := Matches(t.numbered, Int(ParseNat(code)));
    } else {
      found := Matches(t.tagsA, Str(code));
      found := found + Matches(t.tagsB, Str(code));
    }
  }

  /** The loop `for refcode in p.split(refcodes)` with `p = [,;\s]+`, appending what each code resolves to. */
  method ResolveCodes(refcodes: string, t: RefTables) returns (refinfo: seq<string>)
    ensures refinfo == Resolved(SplitRuns(refcodes, RefSep), t)
  {
    refinfo := ResolveAll(SplitRuns(refcodes, RefSep), t);
  }

  /** The loop itself, over the codes the split gives. */
  method ResolveAll(codes: seq<string>, t: RefTables) returns (refinfo: seq<string>)
    ensures refinfo == Resolved(codes, t)
  {
    refinfo := [];
    var i := 0;
    while i < |codes|
      invariant 0 <= i <= |codes|
      invariant refinfo == Resolved(codes[..i], t)
    {
      var found := ResolveOne(codes[i], t);
      Seqs.TakeSnoc(codes, i);
      ResolvedSnoc(codes[..i], codes[i], t);
      refinfo := refinfo + found;
      i := i + 1;
    }
    Seqs.TakeAll(codes);
  }

  /** The citations of the codes inside one parenthesised group. */
  function GroupCitations(group: string, t: RefTables): seq<string> {
    Resolved(SplitRuns(group, RefSep), t)
  }

  /** What each group of a list resolves to. */
  function GroupResolutions(groups: seq<string>, t: RefTables): (rs: seq<seq<string>>)
    ensures |rs| == |groups|
    ensures forall i :: 0 <= i < |groups| ==> rs[i] == GroupCitations(groups[i], t)
  {
    seq(|groups|, i requires 0 <= i < |groups| => GroupCitations(groups[i], t))
  }

  /** The citations of the codes inside each parenthesised group, group after group. */
  function ResolvedGroups(groups: seq<string>, t: RefTables): seq<string> {
    Flatten(GroupResolutions(groups, t))
  }

  /** Resolving one more group appends the citations of its codes. */
  lemma ResolvedGroupsSnoc(groups: seq<string>, g: string, t: RefTables)
    ensures ResolvedGroups(groups + [g], t) == ResolvedGroups(groups, t) + GroupCitations(g, t)
  {
    Seqs.Snoc(groups, g);
    Seqs.Pointwise(GroupResolutions(groups + [g], t), GroupResolutions(groups, t) + [GroupCitations(g, t)]);
    FlattenSnoc(GroupResolutions(groups, t), GroupCitations(g, t));
  }

  /** The loop `for refs in re.findall("\(([\w\d, ]+)\)", w)` of the two text extractors. */
  method ResolveGroups(w: string, t: RefTables) returns (oref: seq<string>)
    ensures oref == ResolvedGroups(ParenGroups(w), t)
  {
    var groups := ParenGroups(w);
    oref := [];
    var i := 0;
    while i < |groups|
      invariant 0 <= i <= |groups|
      invariant oref == ResolvedGroups(groups[..i], t)
    {
      var found := ResolveCodes(groups[i], t);
      oref := oref + found;
      Seqs.TakeSnoc(groups, i);
      ResolvedGroupsSnoc(groups[..i], groups[i], t);
      i := i + 1;
    }
    Seqs.TakeAll(groups);
  }

  // ---------------------------------------------------------------------
  // Hyperlinks to the References sheet

  /** The `(refcodes, refinfo)` pair `extract_link` returns. */
  datatype LinkRefs = LinkRefs(refcodes: Value, refinfo: seq<string>)

  /** `ref1[cell].value`: the References sheet by cell address; unset cells are empty. */
  function RefCell(references: map<string, Value>, address: string): Value {
    if address in references then references[address] else Null
  }

  /** What `extract_link` returns, or the exception it raises. */
  function Link(target: Cell, references: map<string, Value>, t: RefTables): Result<Option<LinkRefs>>
    requires target.hyperlink.Some?
  {
    match target.hyperlink.value.location
    case None => Err("AttributeError")
    case Some(location) =>
      var parts := Split(location, '!');
      if parts[0] != "References" then Ok(None)
      else if |parts| < 2 then Err("IndexError")
      else
        var v := RefCell(references, Without(parts[1], '\\'));
        match v
        case Null => Ok(None)
        case Int(_) => Ok(Some(LinkRefs(v, Matches(t.numbered, v))))
        case Str(s) => Ok(Some(LinkRefs(v, Resolved(SplitRuns(s, RefSep), t))))
        case _ => Err("TypeError")
  }

  /** `extract_link`. */
  method ExtractLink(target: Cell, references: map<string, Value>, t: RefTables)
    returns (r: Result<Option<LinkRefs>>)
    requires target.hyperlink.Some?
    ensures r == Link(target, references, t)
    ensures target.hyperlink.value.location.None? ==> r.Err?
    ensures target.hyperlink.value.location.Some? ==>
      var parts := Split(target.hyperlink.value.location.value, '!');
      && (parts[0] != "References" ==> r == Ok(None))
      && (parts[0] == "References" && |parts| >= 2 ==>
            var v := RefCell(references, Without(parts[1], '\\'));
            && (v == Null ==> r == Ok(None))
            && (v.Int? ==> r == Ok(Some(LinkRefs(v, Matches(t.numbered, v)))))
            && (v.Str? ==> r == Ok(Some(LinkRefs(v, Resolved(SplitRuns(v.s, RefSep), t))))))
  {
    if target.hyperlink.value.location.None? {
      return Err("AttributeError");
    }
    var hlink := Split(target.hyperlink.value.location.value, '!');
    if hlink[0] != "References" {
      return Ok(None);
    }
    if |hlink| < 2 {
      return Err("IndexError");
    }
    var cell := Without(hlink[1], '\\');
    var refcodes := RefCell(references, cell);
    if refcodes == Null {
      return Ok(None);
    }
    var refinfo: seq<string> := [];
    if refcodes.Int? {
      refinfo := Matches(t.numbered, refcodes);
    } else if refcodes.Str? {
      refinfo := ResolveCodes(refcodes.s, t);
    } else {
      return Err("TypeError");
    }
    r := Ok(Some(LinkRefs(refcodes, refinfo)));
  }
}
