/**
 * The AusTraits importer (lib/austraits_util.py): reference labels and
 * citations read from the pybtex bibliography, the match of a taxon name
 * against the BioNET species list, and the record built from one row of
 * the AusTraits traits table.
 *
 * A pybtex entry is reduced to its fields and its authors; a person to
 * their last names and the text `str(person)` gives. The species list is
 * a sequence of (scientific name, species code) rows, and a traits row
 * has one value for each column the importer reads.
 */
module AusTraits {
  import opened Wrappers
  import opened Text
  import opened PyValues
  import opened Dicts

  /** A pybtex `Person`: `person.last_names` and `str(person)`. */
  datatype Person = Person(lastNames: seq<string>, text: string)

  /** A pybtex entry: its fields, and `persons['author']` when the entry has authors. */
  datatype Entry = Entry(fields: map<string, string>, authors: Option<seq<Person>>)

  /** `refs.entries`, by entry key. */
  type Bib = map<string, Entry>

  // ---------------------------------------------------------------------
  // extract_reflabel

  /** The last names of every author, in order: the `authors.extend(...)` loop. */
  function LastNames(ps: seq<Person>): seq<string> {
    if ps == [] then [] else LastNames(ps[..|ps| - 1]) + ps[|ps| - 1].lastNames
  }

  /** A label longer than 50 characters becomes its first 47 and `"..."`. */
  function Shorten(s: string): (r: string)
    ensures |r| <= 50
    ensures |s| <= 50 ==> r == s
    ensures |s| > 50 ==> |r| == 50 && r[..47] == s[..47] && r[47..] == "..."
  {
    if |s| > 50 then s[..47] + "..." else s
  }

  /** `extract_reflabel(x, refid)`: last names and year; KeyError for a missing entry, year or author list. */
  function RefLabel(bib: Bib, refid: string): Result<string> {
    if refid !in bib then Err("KeyError")
    else
      var e := bib[refid];
      if "year" !in e.fields || e.authors.None? then Err("KeyError")
      else Ok(Shorten(Join(LastNames(e.authors.value), " ") + " " + e.fields["year"]))
  }

  /** The label is the authors' last names and the year, shortened to at most 50 characters. */
  lemma RefLabelShape(bib: Bib, refid: string)
    ensures RefLabel(bib, refid).Err? <==>
      refid !in bib || "year" !in bib[refid].fields || bib[refid].authors.None?
    ensures RefLabel(bib, refid).Ok? ==>
      var e := bib[refid];
      var full := Join(LastNames(e.authors.value), " ") + " " + e.fields["year"];
      var r := RefLabel(bib, refid).value;
      && |r| <= 50
      && (|full| <= 50 ==> r == full)
      && (|full| > 50 ==> r[..47] == full[..47] && r[47..] == "...")
  {
  }

  /** `extract_reflabel`. */
  method ExtractRefLabel(bib: Bib, refid: string) returns (r: Result<string>)
    ensures r == RefLabel(bib, refid)
  {
    if refid !in bib || "year" !in bib[refid].fields {
      return Err("KeyError");
    }
    var year := bib[refid].fields["year"];
    if bib[refid].authors.None? {
      return Err("KeyError");
    }
    var persons := bib[refid].authors.value;
    var authors: seq<string> := [];
    for i := 0 to |persons|
      invariant authors == LastNames(persons[..i])
    {
      assert persons[..i + 1][..i] == persons[..i];
      authors := authors + persons[i].lastNames;
    }
    assert persons[..|persons|] == persons;
    var reflabel := Join(authors, " ") + " " + year;
    if |reflabel| > 50 {
      reflabel := reflabel[0..47] + "...";
    }
    return Ok(reflabel);
  }

  // ---------------------------------------------------------------------
  // extract_refinfo

  /** `str(person)` for each author. */
  function Texts(ps: seq<Person>): (ts: seq<string>)
    ensures |ts| == |ps|
  {
    if ps == [] then [] else Texts(ps[..|ps| - 1]) + [ps[|ps| - 1].text]
  }

  /** The author part of a citation: one author as such, several joined with "; ". */
  function AuthorText(ps: seq<Person>): string {
    if |ps| == 1 then ps[0].text else Join(Texts(ps), "; ")
  }

  /** The fields appended to a citation, in this order, when the entry has them. */
  const ExtraFields: seq<string> := ["journal", "volume", "doi"]

  /** The loop over the extra fields: a space and the field's text for each one present. */
  function Extras(fields: map<string, string>, fs: seq<string>): string {
    if fs == [] then ""
    else
      var f := fs[|fs| - 1];
      Extras(fields, fs[..|fs| - 1]) + (if f in fields then " " + fields[f] else "")
  }

  /** `extract_refinfo(x, refid)`: "authors (year) title" and the extra fields; KeyError for a missing entry, year, title or author list. */
  function RefInfo(bib: Bib, refid: string): Result<string> {
    if refid !in bib then Err("KeyError")
    else
      var e := bib[refid];
      if "year" !in e.fields || "title" !in e.fields || e.authors.None? then Err("KeyError")
      else Ok(AuthorText(e.authors.value) + " (" + e.fields["year"] + ") " + e.fields["title"] + Extras(e.fields, ExtraFields))
  }

  /** The one-author branch gives what joining a single author would: the two branches agree. */
  lemma OneAuthorJoined(ps: seq<Person>)
    ensures AuthorText(ps) == Join(Texts(ps), "; ")
  {
    if |ps| == 1 {
      assert Texts(ps) == [ps[0].text] by {
        assert ps[..0] == [];
      }
    }
  }

  /** The appended fields: each one the entry has, after a space, in the order journal, volume, doi. */
  lemma ExtrasAppended(fields: map<string, string>)
    ensures Extras(fields, ExtraFields) ==
      (if "journal" in fields then " " + fields["journal"] else "") +
      (if "volume" in fields then " " + fields["volume"] else "") +
      (if "doi" in fields then " " + fields["doi"] else "")
  {
    var j := if "journal" in fields then " " + fields["journal"] else "";
    var v := if "volume" in fields then " " + fields["volume"] else "";
    var d := if "doi" in fields then " " + fields["doi"] else "";
    assert Extras(fields, ["journal"]) == j by {
      assert ["journal"][..0] == [];
    }
    assert Extras(fields, ["journal", "volume"]) == j + v by {
      assert ["journal", "volume"][..1] == ["journal"];
    }
    assert Extras(fields, ExtraFields) == j + v + d by {
      assert ExtraFields[..2] == ["journal", "volume"];
    }
  }

  /** A citation starts with its authors and, when the entry has a DOI, ends with it. */
  lemma RefInfoShape(bib: Bib, refid: string)
    requires RefInfo(bib, refid).Ok?
    ensures var e := bib[refid]; var r := RefInfo(bib, refid).value; var a := AuthorText(e.authors.value);
      && |a| <= |r| && r[..|a|] == a
      && ("doi" in e.fields ==> var d := " " + e.fields["doi"]; |d| <= |r| && r[|r| - |d|..] == d)
  {
    var e := bib[refid];
    ExtrasAppended(e.fields);
    var a := AuthorText(e.authors.value);
    var rest := " (" + e.fields["year"] + ") " + e.fields["title"] + Extras(e.fields, ExtraFields);
    assert RefInfo(bib, refid).value == a + rest;
  }

  /** `extract_refinfo`. */
  method ExtractRefInfo(bib: Bib, refid: string) returns (r: Result<string>)
    ensures r == RefInfo(bib, refid)
  {
    if refid !in bib || "year" !in bib[refid].fields || "title" !in bib[refid].fields || bib[refid].authors.None? {
      return Err("KeyError");
    }
    var fields := bib[refid].fields;
    var persons := bib[refid].authors.value;
    var refcitation: string;
    if |persons| == 1 {
      refcitation := persons[0].text + " (" + fields["year"] + ") " + fields["title"];
    } else {
      var authors: seq<string> := [];
      for i := 0 to |persons|
        invariant authors == Texts(persons[..i])
      {
        assert persons[..i + 1][..i] == persons[..i];
        authors := authors + [persons[i].text];
      }
      assert persons[..|persons|] == persons;
      refcitation := Join(authors, "; ") + " (" + fields["year"] + ") " + fields["title"];
    }
    ghost var head := refcitation;
    for j := 0 to |ExtraFields|
      invariant refcitation == head + Extras(fields, ExtraFields[..j])
    {
      var f := ExtraFields[j];
      assert ExtraFields[..j + 1][..j] == ExtraFields[..j];
      if f in fields {
        refcitation := refcitation + " " + fields[f];
      }
    }
    assert ExtraFields[..|ExtraFields|] == ExtraFields;
    return Ok(refcitation);
  }

  // ---------------------------------------------------------------------
  // match_spcode

  /** A row of the BioNET species list: `scientificName` and `speciesCode_Synonym`. */
  datatype Taxon = Taxon(scientificName: Value, speciesCode: Value)

  /** `taxlist[taxlist['scientificName'] == name]`: the rows with that name, in order. */
  function Named(taxlist: seq<Taxon>, name: Value): (ts: seq<Taxon>)
    ensures |ts| <= |taxlist|
    ensures forall t :: t in ts <==> t in taxlist && t.scientificName == name
  {
    if taxlist == [] then []
    else
      var t := taxlist[|taxlist| - 1];
      Named(taxlist[..|taxlist| - 1], name) + (if t.scientificName == name then [t] else [])
  }

  const AltNote := "original name used to match with BioNET names"

  /** The notes a record gets when the original name differs from the accepted one. */
  function NameNotes(altname: Value): seq<Value> {
    [Str("original_name:"), altname]
  }

  /**
   * `match_spcode(row, taxlist)`. A `Series` is never `None`, so the code is
   * taken whenever exactly one row has the name.
   */
  function MatchSpcode(spname: Value, altname: Value, taxlist: seq<Taxon>): (r: Record)
    ensures KeysHeld(r) && forall k :: k in r.keys <==> k in r.items
    ensures forall k :: k in r.items ==> k == "species" || k == "original_notes" || k == "species_code"
    ensures Has(r, "original_notes") ==> r.items["original_notes"].List?
  {
    InfoPut(Empty(), "species", spname);
    var base := Put(Empty(), "species", spname);
    InfoPut(base, "original_notes", List(NameNotes(altname)));
    var noted := if altname != spname then Put(base, "original_notes", List(NameNotes(altname))) else base;
    var byName := Named(taxlist, spname);
    if |byName| == 1 then
      InfoPut(noted, "species_code", byName[0].speciesCode);
      Put(noted, "species_code", byName[0].speciesCode)
    else if spname != altname then
      var byAlt := Named(taxlist, altname);
      if |byAlt| == 1 then
        var coded := Put(noted, "species_code", byAlt[0].speciesCode);
        InfoPut(noted, "species_code", byAlt[0].speciesCode);
        InfoPut(coded, "original_notes", List(NameNotes(altname) + [Str(AltNote)]));
        Put(coded, "original_notes", List(NameNotes(altname) + [Str(AltNote)]))
      else noted
    else noted
  }

  /** Species information with only the keys `match_spcode` sets, every listed key holding a value. */
  ghost predicate InfoShape(r: Record) {
    && KeysHeld(r) && (forall k :: k in r.keys <==> k in r.items)
    && forall k :: k in r.items ==> k == "species" || k == "original_notes" || k == "species_code"
  }

  /** Setting one of those keys keeps that shape. */
  lemma InfoPut(r: Record, k: string, v: Value)
    requires InfoShape(r) && (k == "species" || k == "original_notes" || k == "species_code")
    ensures InfoShape(Put(r, k, v))
  {
  }

  /** Exactly one row has the name: it is the one `values[0]` reads. */
  lemma {:induction false} NamedOne(taxlist: seq<Taxon>, name: Value)
    requires |Named(taxlist, name)| == 1
    ensures exists k :: 0 <= k < |taxlist| && taxlist[k] == Named(taxlist, name)[0] && taxlist[k].scientificName == name
  {
    var t := Named(taxlist, name)[0];
    assert t in Named(taxlist, name);
    var k :| 0 <= k < |taxlist| && taxlist[k] == t;
  }

  /**
   * The species is the taxon name; the original-name notes are there exactly
   * when the two names differ; the code comes from the one row named like
   * the taxon, or else from the one row named like the original, which
   * adds a note.
   */
  lemma MatchFacts(spname: Value, altname: Value, taxlist: seq<Taxon>)
    ensures var r := MatchSpcode(spname, altname, taxlist);
      var byName := Named(taxlist, spname); var byAlt := Named(taxlist, altname);
      && Get(r, "species") == Some(spname)
      && (Has(r, "original_notes") <==> altname != spname)
      && (Has(r, "species_code") <==> |byName| == 1 || (altname != spname && |byAlt| == 1))
      && (|byName| == 1 ==> Get(r, "species_code") == Some(byName[0].speciesCode))
      && (|byName| != 1 && altname != spname && |byAlt| == 1 ==>
            Get(r, "species_code") == Some(byAlt[0].speciesCode) &&
            Get(r, "original_notes") == Some(List(NameNotes(altname) + [Str(AltNote)])))
      && (altname != spname && !(|byName| != 1 && |byAlt| == 1) ==>
            Get(r, "original_notes") == Some(List(NameNotes(altname))))
  {
  }

  // ---------------------------------------------------------------------
  // create_record

  /** The columns of an AusTraits traits row that the importer reads. */
  datatype TraitRow = TraitRow(
    datasetId: Value, taxonName: Value, originalName: Value, traitName: Value, value: Value,
    valueType: Value, observationId: Value, sourceId: Value, locationId: Value)

  const MainSource := "austraits-6.0.0"
  const SourceNote := "Austraits (v6.0.0) record with source_id as well as dataset_id"
  const Redundant := Str("NSWFRD_2014")

  /** The label of a dataset or source id: its reference label when the bibliography has it, the id itself when not. */
  function Label(bib: Bib, id: Value): Result<Value> {
    if id.Str? && id.s in bib then
      var l := RefLabel(bib, id.s);
      if l.Err? then Err(l.error) else Ok(Str(l.value))
    else Ok(id)
  }

  /** `[srcid.strip() for srcid in source_id.split(',')]`. */
  function SourceIds(s: string): (ids: seq<string>)
    ensures |ids| == |Split(s, ',')|
    ensures forall j :: 0 <= j < |ids| ==> ids[j] == Strip(Split(s, ',')[j], Whitespace)
  {
    var parts := Split(s, ',');
    seq(|parts|, j requires 0 <= j < |parts| => Strip(parts[j], Whitespace))
  }

  /** The labels of the source ids, in order, or the first exception. */
  function SourceLabels(bib: Bib, ids: seq<string>): Result<seq<Value>> {
    if ids == [] then Ok([])
    else
      var before := SourceLabels(bib, ids[..|ids| - 1]);
      var l := Label(bib, Str(ids[|ids| - 1]));
      if before.Err? then before
      else if l.Err? then Err(l.error)
      else Ok(before.value + [l.value])
  }

  /** The source labels of a row: none for "nan"; AttributeError when the column is not text. */
  function Sources(bib: Bib, sourceId: Value): Result<seq<Value>> {
    if sourceId == Str("nan") then Ok([])
    else if !sourceId.Str? then Err("AttributeError")
    else SourceLabels(bib, SourceIds(sourceId.s))
  }

  /** The dict literal `record = {...}`. */
  function Start(row: TraitRow, reflabel: Value): (r: Record)
    ensures KeysHeld(r) && Lists(r)
  {
    DictRep(["main_source", "additional_notes", "raw_value", "original_notes", "original_sources"],
      map["main_source" := Str(MainSource),
          "additional_notes" := Strs(["Values reclassified by JRFP", "Automatic extraction with python script"]),
          "raw_value" := List([row.traitName, row.value, row.valueType]),
          "original_notes" := List([Str("observation_id"), Str(Show(row.observationId))]),
          "original_sources" := List([reflabel])])
  }

  /** `for key in spinfo.keys(): record[key] = spinfo[key]`, over the first `n` keys. */
  function CopyInfo(rec: Record, info: Record, n: nat): Record
    requires KeysHeld(info) && n <= |info.keys|
  {
    if n == 0 then rec else Put(CopyInfo(rec, info, n - 1), info.keys[n - 1], info.items[info.keys[n - 1]])
  }

  /** `r` has what `rec` has under every key other than `a` and `b`. */
  ghost predicate Agrees(rec: Record, r: Record, a: string, b: string) {
    forall k :: k != a && k != b ==> Get(r, k) == Get(rec, k)
  }

  /** The lists of a record that the later steps append to. */
  predicate Lists(rec: Record) {
    && Has(rec, "original_notes") && rec.items["original_notes"].List?
    && Has(rec, "original_sources") && rec.items["original_sources"].List?
    && Has(rec, "additional_notes") && rec.items["additional_notes"].List?
  }

  /** `record[k].append(v)` for a key that holds a list. */
  function Append(rec: Record, k: string, v: Value): (r: Record)
    requires Has(rec, k) && rec.items[k].List?
    ensures r.keys == rec.keys && Get(r, k) == Some(List(rec.items[k].items + [v]))
    ensures Agrees(rec, r, k, k)
    ensures Lists(rec) ==> Lists(r)
  {
    Put(rec, k, List(rec.items[k].items + [v]))
  }

  /** `record['original_sources'] += srcs`: the source labels after the dataset's. */
  function Listed(rec: Record, srcs: seq<Value>): (r: Record)
    requires Lists(rec)
    ensures Lists(r) && Agrees(rec, r, "original_sources", "original_sources")
    ensures Get(r, "original_sources") == Some(List(rec.items["original_sources"].items + srcs))
  {
    Put(rec, "original_sources", List(rec.items["original_sources"].items + srcs))
  }

  /** The source labels and, when `source_id` is not "nan", the note saying so. */
  function WithSources(rec: Record, srcs: seq<Value>, given: bool): (r: Record)
    requires Lists(rec)
    ensures Lists(r) && Agrees(rec, r, "original_sources", "additional_notes")
  {
    if !given then rec
    else Append(Listed(rec, srcs), "additional_notes", Str(SourceNote))
  }

  /** The weight: 0 for records of the redundant NSWFRD_2014 dataset, 1 for any other. */
  function WithWeight(rec: Record, reflabel: Value): (r: Record)
    ensures Agrees(rec, r, "weight", "weight_notes")
    ensures Lists(rec) ==> Lists(r)
  {
    if reflabel == Redundant then
      Put(Put(rec, "weight", Int(0)), "weight_notes", Strs(["python-script import", "default of 0 for redundant records"]))
    else
      Put(Put(rec, "weight", Int(1)), "weight_notes", Strs(["python-script import", "default of 1"]))
  }

  /** `vocab.get(row['value'], None)`. */
  function Translate(vocab: map<Value, Value>, v: Value): Value {
    if v in vocab then vocab[v] else Null
  }

  /** `norm_value` is set when the vocabulary translates the value. */
  function WithNorm(rec: Record, t: Value): (r: Record)
    ensures Agrees(rec, r, "norm_value", "norm_value")
    ensures Lists(rec) ==> Lists(r)
  {
    if t != Null then Put(rec, "norm_value", t) else rec
  }

  /** The location notes, when `location_id` is not "nan". */
  function WithLocation(rec: Record, loc: Value): (r: Record)
    requires Has(rec, "original_notes") && rec.items["original_notes"].List?
    ensures Agrees(rec, r, "original_notes", "original_notes")
  {
    if loc != Str("nan") then
      Append(Append(rec, "original_notes", Str("location id:")), "original_notes", Str(Show(loc)))
    else rec
  }

  /** The record after the species information has been copied in. */
  function Matched(row: TraitRow, reflabel: Value, taxlist: seq<Taxon>): (r: Record)
    ensures Lists(r)
  {
    var info := MatchSpcode(row.taxonName, row.originalName, taxlist);
    CopyInfoLists(Start(row, reflabel), info, |info.keys|);
    CopyInfo(Start(row, reflabel), info, |info.keys|)
  }

  /** The steps after the species information, from the record they start on. */
  function Built(m: Record, reflabel: Value, srcs: seq<Value>, given: bool, t: Value, loc: Value): Record
    requires Lists(m)
  {
    WithLocation(WithNorm(WithWeight(WithSources(m, srcs, given), reflabel), t), loc)
  }

  /** `create_record(row, refs, vocab, taxlist)`. */
  function AusTraitsRecord(row: TraitRow, bib: Bib, vocab: map<Value, Value>, taxlist: seq<Taxon>): Result<Record> {
    var reflabel := Label(bib, row.datasetId);
    if reflabel.Err? then Err(reflabel.error)
    else
      var srcs := Sources(bib, row.sourceId);
      if srcs.Err? then Err(srcs.error)
      else
        Ok(Built(Matched(row, reflabel.value, taxlist), reflabel.value, srcs.value, row.sourceId != Str("nan"),
                 Translate(vocab, row.value), row.locationId))
  }

  // ---------------------------------------------------------------------
  // Properties of create_record

  /** Copying the species information sets exactly its keys, to its values. */
  lemma {:induction false} CopyInfoGet(rec: Record, info: Record, n: nat, k: string)
    requires KeysHeld(info) && n <= |info.keys|
    ensures Get(CopyInfo(rec, info, n), k) == if Among(info.keys, n, k) then Get(info, k) else Get(rec, k)
  {
    if n > 0 {
      CopyInfoGet(rec, info, n - 1, k);
      CopyInfoStep(rec, info, n, k);
    }
  }

  /** One more key copied: it wins over what was there, and the others stay as they were. */
  lemma CopyInfoStep(rec: Record, info: Record, n: nat, k: string)
    requires KeysHeld(info) && 0 < n <= |info.keys|
    ensures Get(CopyInfo(rec, info, n), k) ==
      if info.keys[n - 1] == k then Get(info, k) else Get(CopyInfo(rec, info, n - 1), k)
  {
  }

  /** `k` is one of the first `n` keys. */
  predicate Among(ks: seq<string>, n: nat, k: string)
    requires n <= |ks|
  {
    n > 0 && (ks[n - 1] == k || Among(ks, n - 1, k))
  }

  /** `Among` is membership in the first `n` keys. */
  lemma {:induction false} AmongIn(ks: seq<string>, n: nat, k: string)
    requires n <= |ks|
    ensures Among(ks, n, k) <==> k in ks[..n]
  {
    if n > 0 {
      AmongIn(ks, n - 1, k);
      assert ks[..n] == ks[..n - 1] + [ks[n - 1]];
    }
  }

  /** Copying the species information keeps the record's lists lists. */
  lemma {:induction false} CopyInfoLists(rec: Record, info: Record, n: nat)
    requires KeysHeld(info) && n <= |info.keys| && Lists(rec)
    requires forall k :: k in info.items ==> k == "species" || k == "original_notes" || k == "species_code"
    requires Has(info, "original_notes") ==> info.items["original_notes"].List?
    ensures Lists(CopyInfo(rec, info, n))
  {
    if n > 0 {
      CopyInfoLists(rec, info, n - 1);
      var k := info.keys[n - 1];
      assert k in info.items;
      PutLists(CopyInfo(rec, info, n - 1), k, info.items[k]);
    }
  }

  /** Setting a key other than the sources and the additional notes, or the notes to a list, keeps the lists. */
  lemma PutLists(rec: Record, k: string, v: Value)
    requires Lists(rec) && k != "original_sources" && k != "additional_notes"
    requires k == "original_notes" ==> v.List?
    ensures Lists(Put(rec, k, v))
  {
  }

  /** The copy leaves every key the species information lacks as it was. */
  lemma CopiedGet(rec: Record, info: Record, k: string)
    requires KeysHeld(info) && forall x :: x in info.keys <==> x in info.items
    ensures Get(CopyInfo(rec, info, |info.keys|), k) == if Has(info, k) then Get(info, k) else Get(rec, k)
  {
    CopyInfoGet(rec, info, |info.keys|, k);
    AmongIn(info.keys, |info.keys|, k);
    assert info.keys[..|info.keys|] == info.keys;
  }

  /**
   * After the species information: the dataset's label is the one source,
   * the notes are the original-name notes when the names differ and the
   * observation id when not, and there is neither weight nor normalised value.
   */
  lemma MatchedGet(row: TraitRow, reflabel: Value, taxlist: seq<Taxon>)
    ensures var m := Matched(row, reflabel, taxlist);
      var info := MatchSpcode(row.taxonName, row.originalName, taxlist);
      && m.items["original_sources"] == List([reflabel])
      && m.items["original_notes"] == (if Has(info, "original_notes") then info.items["original_notes"]
                                       else List([Str("observation_id"), Str(Show(row.observationId))]))
      && !Has(m, "norm_value")
  {
    CopiedStart(row, reflabel, MatchSpcode(row.taxonName, row.originalName, taxlist));
  }

  /** The record literal after the copy of any species information of the shape `match_spcode` gives. */
  lemma CopiedStart(row: TraitRow, reflabel: Value, info: Record)
    requires KeysHeld(info) && forall k :: k in info.keys <==> k in info.items
    requires forall k :: k in info.items ==> k == "species" || k == "original_notes" || k == "species_code"
    ensures var m := CopyInfo(Start(row, reflabel), info, |info.keys|);
      && Get(m, "original_sources") == Some(List([reflabel]))
      && Get(m, "original_notes") == (if Has(info, "original_notes") then Get(info, "original_notes")
                                      else Some(List([Str("observation_id"), Str(Show(row.observationId))])))
      && !Has(m, "norm_value")
  {
    var s := Start(row, reflabel);
    CopiedGet(s, info, "original_sources");
    CopiedGet(s, info, "original_notes");
    CopiedGet(s, info, "norm_value");
  }

  /** The sources after the later steps: the dataset's, then the source ids' when given. */
  lemma BuiltSources(m: Record, reflabel: Value, srcs: seq<Value>, given: bool, t: Value, loc: Value)
    requires Lists(m)
    ensures Get(Built(m, reflabel, srcs, given, t, loc), "original_sources") ==
      Some(List(m.items["original_sources"].items + if given then srcs else []))
  {
    var s := WithSources(m, srcs, given);
    if given {
      var l := Listed(m, srcs);
      assert Get(s, "original_sources") == Get(l, "original_sources");
    } else {
      assert m.items["original_sources"].items + [] == m.items["original_sources"].items;
    }
    var w := WithWeight(s, reflabel);
    var n := WithNorm(w, t);
    assert Get(n, "original_sources") == Get(s, "original_sources");
  }

  /** The notes after the later steps: the ones before, then the location's when there is one. */
  lemma BuiltNotes(m: Record, reflabel: Value, srcs: seq<Value>, given: bool, t: Value, loc: Value)
    requires Lists(m)
    ensures Get(Built(m, reflabel, srcs, given, t, loc), "original_notes") ==
      Some(List(m.items["original_notes"].items + if loc != Str("nan") then [Str("location id:"), Str(Show(loc))] else []))
  {
    var n := WithNorm(WithWeight(WithSources(m, srcs, given), reflabel), t);
    assert Get(n, "original_notes") == Get(m, "original_notes");
    LocationNotes(n, loc);
  }

  /** The location notes come after the notes already there. */
  lemma LocationNotes(rec: Record, loc: Value)
    requires Has(rec, "original_notes") && rec.items["original_notes"].List?
    ensures Get(WithLocation(rec, loc), "original_notes") ==
      Some(List(rec.items["original_notes"].items + if loc != Str("nan") then [Str("location id:"), Str(Show(loc))] else []))
  {
    var before := rec.items["original_notes"].items;
    if loc != Str("nan") {
      assert before + [Str("location id:")] + [Str(Show(loc))] == before + [Str("location id:"), Str(Show(loc))];
    } else {
      assert before + [] == before;
    }
  }

  /** The weight after the later steps: 0 with the redundancy note for the redundant dataset, else 1. */
  lemma BuiltWeight(m: Record, reflabel: Value, srcs: seq<Value>, given: bool, t: Value, loc: Value)
    requires Lists(m)
    ensures var r := Built(m, reflabel, srcs, given, t, loc);
      && Get(r, "weight") == Some(Int(if reflabel == Redundant then 0 else 1))
      && (reflabel == Redundant ==> Get(r, "weight_notes") == Some(Strs(["python-script import", "default of 0 for redundant records"])))
  {
    var w := WithWeight(WithSources(m, srcs, given), reflabel);
    var n := WithNorm(w, t);
    assert Get(n, "weight") == Get(w, "weight") && Get(n, "weight_notes") == Get(w, "weight_notes");
  }

  /** The normalised value after the later steps: the translation when there is one. */
  lemma BuiltNorm(m: Record, reflabel: Value, srcs: seq<Value>, given: bool, t: Value, loc: Value)
    requires Lists(m)
    ensures Get(Built(m, reflabel, srcs, given, t, loc), "norm_value") == if t != Null then Some(t) else Get(m, "norm_value")
  {
    var w := WithWeight(WithSources(m, srcs, given), reflabel);
    assert Get(w, "norm_value") == Get(m, "norm_value");
  }

  /**
   * The sources: the dataset's label first, then the label of each
   * comma-separated source id, stripped, in order; none when
   * `source_id` is "nan".
   */
  lemma RecordSources(row: TraitRow, bib: Bib, vocab: map<Value, Value>, taxlist: seq<Taxon>)
    requires AusTraitsRecord(row, bib, vocab, taxlist).Ok?
    ensures var r := AusTraitsRecord(row, bib, vocab, taxlist).value;
      var reflabel := Label(bib, row.datasetId).value; var srcs := Sources(bib, row.sourceId).value;
      && Get(r, "original_sources") == Some(List([reflabel] + srcs))
      && (row.sourceId == Str("nan") ==> srcs == [])
  {
    var reflabel := Label(bib, row.datasetId).value;
    var srcs := Sources(bib, row.sourceId).value;
    MatchedGet(row, reflabel, taxlist);
    BuiltSources(Matched(row, reflabel, taxlist), reflabel, srcs, row.sourceId != Str("nan"), Translate(vocab, row.value), row.locationId);
  }

  /** The labels of the source ids, one for each id, in order. */
  lemma {:induction false} SourceLabelsEach(bib: Bib, ids: seq<string>)
    requires SourceLabels(bib, ids).Ok?
    ensures var ls := SourceLabels(bib, ids).value;
      |ls| == |ids| && forall j :: 0 <= j < |ids| ==> Label(bib, Str(ids[j])) == Ok(ls[j])
  {
    if ids != [] {
      SourceLabelsEach(bib, ids[..|ids| - 1]);
    }
  }

  /** Weight 0 and the redundancy note exactly for the NSWFRD_2014 dataset label, weight 1 otherwise. */
  lemma RecordWeight(row: TraitRow, bib: Bib, vocab: map<Value, Value>, taxlist: seq<Taxon>)
    requires AusTraitsRecord(row, bib, vocab, taxlist).Ok?
    ensures var r := AusTraitsRecord(row, bib, vocab, taxlist).value;
      var redundant := Label(bib, row.datasetId).value == Redundant;
      && (Get(r, "weight") == Some(Int(0)) <==> redundant)
      && (Get(r, "weight") == Some(Int(1)) <==> !redundant)
      && (redundant ==> Get(r, "weight_notes") == Some(Strs(["python-script import", "default of 0 for redundant records"])))
  {
    var reflabel := Label(bib, row.datasetId).value;
    var srcs := Sources(bib, row.sourceId).value;
    BuiltWeight(Matched(row, reflabel, taxlist), reflabel, srcs, row.sourceId != Str("nan"), Translate(vocab, row.value), row.locationId);
  }

  /** A normalised value exactly when the vocabulary maps the value to something other than None. */
  lemma RecordNorm(row: TraitRow, bib: Bib, vocab: map<Value, Value>, taxlist: seq<Taxon>)
    requires AusTraitsRecord(row, bib, vocab, taxlist).Ok?
    ensures var r := AusTraitsRecord(row, bib, vocab, taxlist).value;
      && (Has(r, "norm_value") <==> row.value in vocab && vocab[row.value] != Null)
      && (Has(r, "norm_value") ==> r.items["norm_value"] == vocab[row.value])
  {
    var reflabel := Label(bib, row.datasetId).value;
    var srcs := Sources(bib, row.sourceId).value;
    MatchedGet(row, reflabel, taxlist);
    BuiltNorm(Matched(row, reflabel, taxlist), reflabel, srcs, row.sourceId != Str("nan"), Translate(vocab, row.value), row.locationId);
  }

  /**
   * The notes: the observation id when the two names agree, the
   * original-name notes (which replace it) when they differ, then the
   * location id when there is one.
   */
  lemma RecordNotes(row: TraitRow, bib: Bib, vocab: map<Value, Value>, taxlist: seq<Taxon>)
    requires AusTraitsRecord(row, bib, vocab, taxlist).Ok?
    ensures var r := AusTraitsRecord(row, bib, vocab, taxlist).value;
      var info := MatchSpcode(row.taxonName, row.originalName, taxlist);
      var first := if Has(info, "original_notes") then info.items["original_notes"].items
                   else [Str("observation_id"), Str(Show(row.observationId))];
      var loc := if row.locationId != Str("nan") then [Str("location id:"), Str(Show(row.locationId))] else [];
      Get(r, "original_notes") == Some(List(first + loc))
  {
    var reflabel := Label(bib, row.datasetId).value;
    var srcs := Sources(bib, row.sourceId).value;
    MatchedGet(row, reflabel, taxlist);
    BuiltNotes(Matched(row, reflabel, taxlist), reflabel, srcs, row.sourceId != Str("nan"), Translate(vocab, row.value), row.locationId);
  }

  /**
   * When the two names differ the notes start with the original name, not
   * with the observation id: the record no longer says which observation it
   * came from.
   */
  lemma ObservationDropped(row: TraitRow, bib: Bib, vocab: map<Value, Value>, taxlist: seq<Taxon>)
    requires AusTraitsRecord(row, bib, vocab, taxlist).Ok?
    requires row.originalName != row.taxonName
    ensures var r := AusTraitsRecord(row, bib, vocab, taxlist).value;
      && Has(r, "original_notes") && r.items["original_notes"].List?
      && |r.items["original_notes"].items| >= 2 && r.items["original_notes"].items[..2] == NameNotes(row.originalName)
  {
    RecordNotes(row, bib, vocab, taxlist);
    NotesOfNames(row.taxonName, row.originalName, taxlist);
  }

  /** The original-name notes, with or without the match note, start with the original name. */
  lemma NotesOfNames(spname: Value, altname: Value, taxlist: seq<Taxon>)
    requires altname != spname
    ensures var info := MatchSpcode(spname, altname, taxlist);
      && Has(info, "original_notes") && info.items["original_notes"].List?
      && |info.items["original_notes"].items| >= 2 && info.items["original_notes"].items[..2] == NameNotes(altname)
  {
    MatchFacts(spname, altname, taxlist);
  }

  /** The build raises exactly when a label cannot be read or `source_id` is neither "nan" nor text. */
  lemma RecordRaises(row: TraitRow, bib: Bib, vocab: map<Value, Value>, taxlist: seq<Taxon>)
    ensures AusTraitsRecord(row, bib, vocab, taxlist).Err? <==>
      Label(bib, row.datasetId).Err? || Sources(bib, row.sourceId).Err?
  {
  }

  // ---------------------------------------------------------------------
  // The function as written

  /** `create_record`: the record is built and its lists appended to in place. */
  method CreateRecord(row: TraitRow, bib: Bib, vocab: map<Value, Value>, taxlist: seq<Taxon>) returns (r: Result<Record>)
    ensures r == AusTraitsRecord(row, bib, vocab, taxlist)
  {
    var refid := row.datasetId;
    var reflabel := refid;
    if refid.Str? && refid.s in bib {
      var l := ExtractRefLabel(bib, refid.s);
      if l.Err? {
        return Err(l.error);
      }
      reflabel := Str(l.value);
    }
    assert Label(bib, row.datasetId) == Ok(reflabel);
    var transvalue := if row.value in vocab then vocab[row.value] else Null;
    var record := Start(row, reflabel);
    var spinfo := MatchSpcode(row.taxonName, row.originalName, taxlist);
    record := CopyKeys(record, spinfo);
    assert record == Matched(row, reflabel, taxlist);
    var sourced := AddSources(record, bib, row.sourceId);
    if sourced.Err? {
      return Err(sourced.error);
    }
    var built := AddRest(sourced.value, reflabel, transvalue, row.locationId);
    return Ok(built);
  }

  /** The source labels and their note, when `source_id` is not "nan". */
  method AddSources(rec: Record, bib: Bib, sourceId: Value) returns (r: Result<Record>)
    requires Lists(rec)
    ensures var srcs := Sources(bib, sourceId);
      && (r.Err? <==> srcs.Err?)
      && (r.Err? ==> r.error == srcs.error)
      && (r.Ok? ==> r.value == WithSources(rec, srcs.value, sourceId != Str("nan")))
  {
    if sourceId == Str("nan") {
      return Ok(rec);
    }
    if !sourceId.Str? {
      return Err("AttributeError");
    }
    var sourced := AppendSources(rec, bib, sourceId.s);
    if sourced.Err? {
      return Err(sourced.error);
    }
    r := Ok(Append(sourced.value, "additional_notes", Str(SourceNote)));
  }

  /** The weight, the normalised value and the location notes. */
  method AddRest(rec: Record, reflabel: Value, transvalue: Value, loc: Value) returns (r: Record)
    requires Lists(rec)
    ensures r == WithLocation(WithNorm(WithWeight(rec, reflabel), transvalue), loc)
  {
    var record := WithWeight(rec, reflabel);
    ghost var weighed := record;
    if transvalue != Null {
      record := Put(record, "norm_value", transvalue);
    }
    assert record == WithNorm(weighed, transvalue);
    if loc != Str("nan") {
      record := Append(record, "original_notes", Str("location id:"));
      record := Append(record, "original_notes", Str(Show(loc)));
    }
    return record;
  }

  /** The loop copying the species information into the record. */
  method CopyKeys(rec: Record, info: Record) returns (r: Record)
    requires KeysHeld(info)
    ensures r == CopyInfo(rec, info, |info.keys|)
  {
    r := rec;
    for i := 0 to |info.keys|
      invariant r == CopyInfo(rec, info, i)
    {
      var key := info.keys[i];
      r := Put(r, key, info.items[key]);
    }
  }

  /** The loop over the source ids, appending each one's label to `original_sources`. */
  method AppendSources(rec: Record, bib: Bib, sourceId: string) returns (r: Result<Record>)
    requires Lists(rec)
    ensures var srcs := SourceLabels(bib, SourceIds(sourceId));
      && (r.Err? <==> srcs.Err?)
      && (r.Err? ==> r.error == srcs.error)
      && (r.Ok? ==> r.value == Listed(rec, srcs.value))
  {
    var parts := Split(sourceId, ',');
    ghost var ids := SourceIds(sourceId);
    var record := rec;
    assert rec.items["original_sources"].items + [] == rec.items["original_sources"].items;
    PutSame(rec, "original_sources", rec.items["original_sources"]);
    for i := 0 to |parts|
      invariant SourceLabels(bib, ids[..i]).Ok?
      invariant record == Listed(rec, SourceLabels(bib, ids[..i]).value)
    {
      var srcid := Strip(parts[i], Whitespace);
      assert srcid == ids[i];
      LabelsStep(bib, ids, i);
      var srclabel := Str(srcid);
      if srcid in bib {
        var l := ExtractRefLabel(bib, srcid);
        if l.Err? {
          SourceLabelsStop(bib, ids, i + 1);
          return Err(l.error);
        }
        srclabel := Str(l.value);
      }
      ListedAppend(rec, SourceLabels(bib, ids[..i]).value, srclabel);
      record := Append(record, "original_sources", srclabel);
    }
    assert ids[..|parts|] == ids;
    return Ok(record);
  }

  /** The labels of one more source, from the labels of those before it. */
  lemma LabelsStep(bib: Bib, ids: seq<string>, i: nat)
    requires i < |ids|
    ensures SourceLabels(bib, ids[..i + 1]) ==
      var before := SourceLabels(bib, ids[..i]);
      var l := Label(bib, Str(ids[i]));
      if before.Err? then before
      else if l.Err? then Err(l.error)
      else Ok(before.value + [l.value])
  {
    assert ids[..i + 1][..i] == ids[..i];
  }

  /** Appending one more label to the listed sources is listing it with the others. */
  lemma ListedAppend(rec: Record, srcs: seq<Value>, l: Value)
    requires Lists(rec)
    ensures Append(Listed(rec, srcs), "original_sources", l) == Listed(rec, srcs + [l])
  {
    var before := rec.items["original_sources"].items;
    assert before + srcs + [l] == before + (srcs + [l]);
    PutPut(rec, "original_sources", List(before + srcs), List(before + srcs + [l]));
  }

  lemma {:induction false} SourceLabelsStop(bib: Bib, ids: seq<string>, n: nat)
    requires n <= |ids| && SourceLabels(bib, ids[..n]).Err?
    ensures SourceLabels(bib, ids) == SourceLabels(bib, ids[..n])
  {
    if n < |ids| {
      assert ids[..|ids| - 1][..n] == ids[..n];
      SourceLabelsStop(bib, ids[..|ids| - 1], n);
    } else {
      assert ids[..n] == ids;
    }
  }
}
