/**
 * `create_quadrat_sample_record` (lib/fireveg.py): the record of one
 * species observed in a quadrat sample. Resprouting organ and seed bank
 * must come from a vocabulary (as written, or capitalised), counts must be
 * integers, and a sample without a date inherits the date of the one
 * sample of the lookup list with the same visit and replicate number.
 * Whatever cannot be stored is kept as a comment.
 */
module Quadrats {
  import opened Wrappers
  import opened Text
  import opened PyValues
  import opened Dicts
  import opened FieldSwitch

  /** The count columns: stored only when they hold an int. */
  const CountKeys: seq<string> := ["adults_unburnt", "resprouts_live", "resprouts_died", "resprouts_kill",
    "resprouts_reproductive", "recruits_live", "recruits_reproductive", "recruits_died"]

  /** The optional columns, in the order the loop visits them. */
  const QuadratFields: seq<string> := ["species_notes", "resprout_organ", "seedbank"] + CountKeys + ["notes"]

  /** What each optional column is: copied, checked against a vocabulary, a count, or a comment. */
  datatype Kind = Copied | Organ | Seedbank | Count | Comment

  function KindOf(k: string): Kind {
    if k == "resprout_organ" then Organ
    else if k == "seedbank" then Seedbank
    else if k == "notes" then Comment
    else if k in CountKeys then Count
    else Copied
  }

  /** What the function demands of its switch: the four columns it always reads, and columns for the keys it reads when present. */
  predicate QuadratSwitch(sw: Switch) {
    && IsCol(sw, "species") && IsCol(sw, "spcode") && IsCol(sw, "visit_id") && IsCol(sw, "sample_nr")
    && (Has(sw, "date") ==> IsCol(sw, "date"))
    && (Has(sw, "replicate_nr") ==> IsCol(sw, "replicate_nr"))
    && OptionalCols(sw, QuadratFields)
  }

  /** A local variable that may never have been bound. */
  datatype Binding = Unbound | Bound(v: Value)

  /** `replicate_nr`: read from the row, else the switch's fixed one, else never bound. */
  function Replicate(item: seq<Value>, sw: Switch): Binding
    requires QuadratSwitch(sw)
  {
    if Has(sw, "replicate_nr") then Bound(Read(item, sw, "replicate_nr"))
    else if Has(sw, "fixed_replicate_nr") then Bound(sw.items["fixed_replicate_nr"])
    else Unbound
  }

  // ---------------------------------------------------------------------
  // The visit date from the lookup list

  /**
   * The filter's test on one lookup entry: `n['visit_id'] == visit_id and
   * n['replicate_nr'] == replicate_nr`, where a missing key raises KeyError
   * and the replicate number, read only for an entry of the same visit,
   * raises NameError when never bound.
   */
  function Match(n: Record, visitId: Value, rep: Binding): Result<bool> {
    if !Has(n, "visit_id") then Err("KeyError")
    else if n.items["visit_id"] != visitId then Ok(false)
    else if !Has(n, "replicate_nr") then Err("KeyError")
    else if rep.Unbound? then Err("NameError")
    else Ok(n.items["replicate_nr"] == rep.v)
  }

  /** `list(filter(...))` over the lookup list. */
  function Matches(lookup: seq<Record>, visitId: Value, rep: Binding): Result<seq<Record>> {
    if lookup == [] then Ok([])
    else
      var before := Matches(lookup[..|lookup| - 1], visitId, rep);
      var n := lookup[|lookup| - 1];
      var m := Match(n, visitId, rep);
      if before.Err? then before
      else if m.Err? then Err(m.error)
      else if m.value then Ok(before.value + [n])
      else before
  }

  /** `str(replicate_nr)` in a note. */
  function RepText(rep: Binding): string {
    if rep.Bound? then Show(rep.v) else ""
  }

  /** The date to store, and the comment saying where it came from. */
  datatype Dating = Dating(date: Option<Value>, notes: seq<Value>)

  /** The date taken from the entries found, or the note that none was. */
  function LookupDate(found: seq<Record>, rep: Binding): Result<Dating> {
    if |found| == 1 && Has(found[0], "visit_date") then
      var d := found[0].items["visit_date"];
      if d.DateTime? then
        Ok(Dating(Some(Day(d.date)), [Str("visit date not provided, matched by replicate nr " + RepText(rep))]))
      else
        Ok(Dating(Some(d), [Str("matched by replicate nr " + RepText(rep) + ", assuming date object")]))
    else if rep.Unbound? then Err("UnboundLocalError")
    else Ok(Dating(None, [Str("neither visit date nor replicate nr was matched ( replicate nr " + RepText(rep) + " ), no date")]))
  }

  /** The date cell of the row, None when the switch has none. */
  function RowDate(item: seq<Value>, sw: Switch): Value
    requires QuadratSwitch(sw)
  {
    if Has(sw, "date") then Read(item, sw, "date") else Null
  }

  /** The date of the row when it is a datetime, or else the one inherited from the lookup list. */
  function VisitDate(item: seq<Value>, sw: Switch, lookup: seq<Record>): Result<Dating>
    requires QuadratSwitch(sw)
  {
    var d := RowDate(item, sw);
    if d.DateTime? then Ok(Dating(Some(Day(d.date)), []))
    else
      var rep := Replicate(item, sw);
      var found := Matches(lookup, Read(item, sw, "visit_id"), rep);
      if found.Err? then Err(found.error) else LookupDate(found.value, rep)
  }

  // ---------------------------------------------------------------------
  // The optional columns

  /** The record and the comments built so far. */
  datatype Acc = Acc(rec: Record, comms: seq<Value>)

  /** Writing a value that fits its column: a vocabulary word for the vocabulary columns, an int for the counts. */
  predicate Fits(k: string, v: Value, seedbank: seq<string>, organ: seq<string>) {
    match KindOf(k)
    case Organ => v.Str? && v.s in organ
    case Seedbank => v.Str? && v.s in seedbank
    case Count => v.Int?
    case _ => true
  }

  /** A vocabulary column: the value as written, else capitalised, else nothing; only text can be capitalised. */
  function VocabValue(v: Value, valid: seq<string>): (r: Result<Option<Value>>)
    ensures r.Ok? && r.value.Some? ==> r.value.value.Str? && r.value.value.s in valid
    ensures r.Err? <==> !v.Str?
    ensures v.Str? && v.s in valid ==> r == Ok(Some(v))
    ensures v.Str? && v.s !in valid && Capitalize(v.s) in valid ==> r == Ok(Some(Str(Capitalize(v.s))))
    ensures v.Str? && v.s !in valid && Capitalize(v.s) !in valid ==> r == Ok(None)
  {
    if v.Str? && v.s in valid then Ok(Some(v))
    else if !v.Str? then Err("AttributeError")
    else if Capitalize(v.s) in valid then Ok(Some(Str(Capitalize(v.s))))
    else Ok(None)
  }

  /** What a usable value of an optional column stores under its key, if anything; it always fits. */
  function FieldValue(k: string, v: Value, seedbank: seq<string>, organ: seq<string>): (r: Result<Option<Value>>)
    ensures r.Ok? && r.value.Some? ==> Fits(k, r.value.value, seedbank, organ)
  {
    match KindOf(k)
    case Organ => VocabValue(v, organ)
    case Seedbank => VocabValue(v, seedbank)
    case Comment => Ok(None)
    case Count => if v.Int? then Ok(Some(v)) else Ok(None)
    case Copied => Ok(Some(v))
  }

  /** The comment a usable value of an optional column adds, if any. */
  function FieldNote(k: string, v: Value, seedbank: seq<string>, organ: seq<string>): seq<Value> {
    match KindOf(k)
    case Organ => if VocabValue(v, organ) == Ok(None) then [Str("resprout organ written as " + Show(v))] else []
    case Seedbank => if VocabValue(v, seedbank) == Ok(None) then [Str("seedbank written as " + Show(v))] else []
    case Comment => if v.Int? || v.Float? then [Str("Comment column included a numeric value of " + Show(v))] else [v]
    case Count => if v.Int? then [] else [Str(k + " written as " + Show(v))]
    case Copied => []
  }

  /** One usable value of an optional column. */
  function FieldStep(acc: Acc, k: string, v: Value, seedbank: seq<string>, organ: seq<string>): Result<Acc> {
    var val := FieldValue(k, v, seedbank, organ);
    if val.Err? then Err(val.error)
    else
      var rec := if val.value.Some? then Put(acc.rec, k, val.value.value) else acc.rec;
      Ok(Acc(rec, acc.comms + FieldNote(k, v, seedbank, organ)))
  }

  /** The loop over the optional columns the switch has, skipping values that are not usable. */
  function Fields(acc: Acc, item: seq<Value>, sw: Switch, cols: seq<string>, seedbank: seq<string>, organ: seq<string>): Result<Acc>
    requires OptionalCols(sw, cols)
  {
    if cols == [] then Ok(acc)
    else
      var before := Fields(acc, item, sw, cols[..|cols| - 1], seedbank, organ);
      var k := cols[|cols| - 1];
      if before.Err? || !Has(sw, k) || !Usable(Read(item, sw, k)) then before
      else FieldStep(before.value, k, Read(item, sw, k), seedbank, organ)
  }

  /** The comments the optional columns add, column by column. */
  function FieldNotes(item: seq<Value>, sw: Switch, cols: seq<string>, seedbank: seq<string>, organ: seq<string>): seq<Value>
    requires OptionalCols(sw, cols)
  {
    if cols == [] then []
    else
      var k := cols[|cols| - 1];
      FieldNotes(item, sw, cols[..|cols| - 1], seedbank, organ)
      + (if Has(sw, k) && Usable(Read(item, sw, k)) then FieldNote(k, Read(item, sw, k), seedbank, organ) else [])
  }

  // ---------------------------------------------------------------------
  // The record

  /** `isinstance(spcode, str) and spcode.isnumeric()` or an int. */
  predicate IsSpeciesCode(v: Value) {
    (v.Str? && IsNumeric(v.s)) || v.Int?
  }

  /** The comments naming the workbook and the worksheet, when the switch gives them. */
  function SourceComments(sw: Switch): seq<Value> {
    (if Has(sw, "workbook") then [Str("Imported from workbook " + Show(sw.items["workbook"]) + " using python script")] else [])
    + (if Has(sw, "worksheet") then [Str("Imported from spreadsheet " + Show(sw.items["worksheet"]))] else [])
  }

  /** The first three keys. */
  function BaseRecord(item: seq<Value>, sw: Switch): Record
    requires QuadratSwitch(sw)
  {
    Put(Put(Put(Empty(), "visit_id", Read(item, sw, "visit_id")), "sample_nr", Read(item, sw, "sample_nr")),
      "species", Read(item, sw, "species"))
  }

  /** The record and comments before the optional columns: the first keys, the visit date, the species code. */
  function Coded(item: seq<Value>, sw: Switch, dating: Dating): Acc
    requires QuadratSwitch(sw)
  {
    var base := BaseRecord(item, sw);
    var dated := if dating.date.Some? then Put(base, "visit_date", dating.date.value) else base;
    var spcode := Read(item, sw, "spcode");
    Acc(if IsSpeciesCode(spcode) then Put(dated, "species_code", spcode) else dated, SourceComments(sw) + dating.notes)
  }

  /** The record with its comments, when there are some. */
  function Finished(acc: Acc): Record {
    if |acc.comms| > 0 then Put(acc.rec, "comments", List(acc.comms)) else acc.rec
  }

  /** `create_quadrat_sample_record`: nothing for a row without a species. */
  function QuadratRecord(item: seq<Value>, sw: Switch, lookup: seq<Record>, seedbank: seq<string>, organ: seq<string>): Result<Option<Record>>
    requires QuadratSwitch(sw)
  {
    if Read(item, sw, "species") == Null then Ok(None)
    else
      var dating := VisitDate(item, sw, lookup);
      if dating.Err? then Err(dating.error)
      else
        var acc := Fields(Coded(item, sw, dating.value), item, sw, QuadratFields, seedbank, organ);
        if acc.Err? then Err(acc.error) else Ok(Some(Finished(acc.value)))
  }

  // ---------------------------------------------------------------------
  // Properties

  /** A row gives no record exactly when it names no species, and then raises nothing. */
  lemma QuadratSkipped(item: seq<Value>, sw: Switch, lookup: seq<Record>, seedbank: seq<string>, organ: seq<string>)
    requires QuadratSwitch(sw)
    ensures QuadratRecord(item, sw, lookup, seedbank, organ) == Ok(None) <==> Read(item, sw, "species") == Null
  {
  }

  /** The filter keeps exactly the lookup entries of the same visit and replicate number, in order. */
  lemma {:induction false} MatchesFilter(lookup: seq<Record>, visitId: Value, rep: Binding)
    requires Matches(lookup, visitId, rep).Ok?
    ensures var found := Matches(lookup, visitId, rep).value;
      && |found| <= |lookup|
      && (found != [] ==> rep.Bound?)
      && (forall j :: 0 <= j < |found| ==> found[j] in lookup && Match(found[j], visitId, rep) == Ok(true))
      && (forall j :: 0 <= j < |lookup| ==> Match(lookup[j], visitId, rep).Ok?)
      && (forall j :: 0 <= j < |lookup| && Match(lookup[j], visitId, rep) == Ok(true) ==> lookup[j] in found)
  {
    if lookup != [] {
      var init := lookup[..|lookup| - 1];
      var n := lookup[|lookup| - 1];
      MatchesFilter(init, visitId, rep);
      assert forall j :: 0 <= j < |init| ==> init[j] == lookup[j];
      assert forall x :: x in init ==> x in lookup;
    }
  }

  /**
   * The filter raises KeyError at the first entry without a visit, or of
   * the same visit without a replicate number; when the replicate number
   * was never bound it raises NameError at the first entry of the same visit.
   */
  lemma {:induction false} MatchesRaise(lookup: seq<Record>, visitId: Value, rep: Binding)
    ensures Matches(lookup, visitId, rep).Err? <==> exists j :: 0 <= j < |lookup| && Match(lookup[j], visitId, rep).Err?
  {
    if lookup != [] {
      var init := lookup[..|lookup| - 1];
      MatchesRaise(init, visitId, rep);
      if j :| 0 <= j < |init| && Match(init[j], visitId, rep).Err? {
        assert lookup[j] == init[j];
      }
      if j :| 0 <= j < |lookup| && Match(lookup[j], visitId, rep).Err? {
        if j < |init| {
          assert init[j] == lookup[j];
        }
      }
    }
  }

  /** Every key of the record holds a value its column allows. */
  ghost predicate AllFit(rec: Record, seedbank: seq<string>, organ: seq<string>) {
    forall k :: Has(rec, k) ==> Fits(k, rec.items[k], seedbank, organ)
  }

  /** The optional columns keep every stored value fitting its column. */
  lemma {:induction false} FieldsFit(acc: Acc, item: seq<Value>, sw: Switch, cols: seq<string>, seedbank: seq<string>, organ: seq<string>)
    requires OptionalCols(sw, cols)
    requires AllFit(acc.rec, seedbank, organ)
    requires Fields(acc, item, sw, cols, seedbank, organ).Ok?
    ensures AllFit(Fields(acc, item, sw, cols, seedbank, organ).value.rec, seedbank, organ)
  {
    if cols != [] {
      var init := cols[..|cols| - 1];
      assert OptionalCols(sw, init);
      FieldsFit(acc, item, sw, init, seedbank, organ);
    }
  }

  /** The optional columns write only their own keys and only add comments. */
  lemma {:induction false} FieldsKeep(acc: Acc, item: seq<Value>, sw: Switch, cols: seq<string>, seedbank: seq<string>, organ: seq<string>, k: string)
    requires OptionalCols(sw, cols)
    requires k !in cols
    requires Fields(acc, item, sw, cols, seedbank, organ).Ok?
    ensures Get(Fields(acc, item, sw, cols, seedbank, organ).value.rec, k) == Get(acc.rec, k)
    ensures acc.comms <= Fields(acc, item, sw, cols, seedbank, organ).value.comms
  {
    if cols != [] {
      var init := cols[..|cols| - 1];
      assert OptionalCols(sw, init);
      assert k !in init;
      FieldsKeep(acc, item, sw, init, seedbank, organ, k);
    }
  }

  /**
   * The rules of one usable value: a vocabulary word is stored as written,
   * else capitalised, else a comment says how it was written; a value that
   * is not text raises. A count is stored when it is an int, else a comment
   * says how it was written. A stored value never leaves a comment.
   */
  lemma FieldRules(k: string, v: Value, seedbank: seq<string>, organ: seq<string>)
    ensures KindOf(k) == Organ ==> FieldValue(k, v, seedbank, organ) == VocabValue(v, organ)
    ensures KindOf(k) == Organ && v.Str? && v.s !in organ && Capitalize(v.s) !in organ ==>
      FieldNote(k, v, seedbank, organ) == [Str("resprout organ written as " + Show(v))]
    ensures KindOf(k) == Seedbank ==> FieldValue(k, v, seedbank, organ) == VocabValue(v, seedbank)
    ensures KindOf(k) == Seedbank && v.Str? && v.s !in seedbank && Capitalize(v.s) !in seedbank ==>
      FieldNote(k, v, seedbank, organ) == [Str("seedbank written as " + Show(v))]
    ensures KindOf(k) == Count && v.Int? ==> FieldValue(k, v, seedbank, organ) == Ok(Some(v))
    ensures KindOf(k) == Count && !v.Int? ==>
      FieldValue(k, v, seedbank, organ) == Ok(None) && FieldNote(k, v, seedbank, organ) == [Str(k + " written as " + Show(v))]
    ensures KindOf(k) in {Organ, Seedbank, Count} && FieldValue(k, v, seedbank, organ).Ok? ==>
      (FieldValue(k, v, seedbank, organ).value.Some? <==> FieldNote(k, v, seedbank, organ) == [])
  {
  }

  /**
   * After the optional columns, a listed column with a usable value holds
   * what its rule stores, or what it held before when the rule stores
   * nothing; any other key is as before; the comments are the ones before
   * followed by those of the columns.
   */
  lemma {:induction false} FieldsGet(acc: Acc, item: seq<Value>, sw: Switch, cols: seq<string>, seedbank: seq<string>, organ: seq<string>, k: string)
    requires OptionalCols(sw, cols) && DistinctKeys(cols)
    requires Fields(acc, item, sw, cols, seedbank, organ).Ok?
    ensures k in cols && Has(sw, k) && Usable(Read(item, sw, k)) ==>
      && FieldValue(k, Read(item, sw, k), seedbank, organ).Ok?
      && Get(Fields(acc, item, sw, cols, seedbank, organ).value.rec, k) ==
        if FieldValue(k, Read(item, sw, k), seedbank, organ).value.Some? then FieldValue(k, Read(item, sw, k), seedbank, organ).value
        else Get(acc.rec, k)
    ensures !(k in cols && Has(sw, k) && Usable(Read(item, sw, k))) ==>
      Get(Fields(acc, item, sw, cols, seedbank, organ).value.rec, k) == Get(acc.rec, k)
  {
    if cols != [] {
      var init := cols[..|cols| - 1];
      var c := cols[|cols| - 1];
      assert OptionalCols(sw, init);
      assert DistinctKeys(init);
      assert c !in init;
      assert k in cols ==> k in init || k == c;
      FieldsGet(acc, item, sw, init, seedbank, organ, k);
    }
  }

  /** The comments after the optional columns: the ones before, then those of the columns. */
  lemma {:induction false} FieldsComments(acc: Acc, item: seq<Value>, sw: Switch, cols: seq<string>, seedbank: seq<string>, organ: seq<string>)
    requires OptionalCols(sw, cols)
    requires Fields(acc, item, sw, cols, seedbank, organ).Ok?
    ensures Fields(acc, item, sw, cols, seedbank, organ).value.comms == acc.comms + FieldNotes(item, sw, cols, seedbank, organ)
  {
    if cols != [] {
      var init := cols[..|cols| - 1];
      assert OptionalCols(sw, init);
      FieldsComments(acc, item, sw, init, seedbank, organ);
    }
  }

  /** Every comment of a usable column is among the comments of the columns. */
  lemma {:induction false} FieldNotesHas(item: seq<Value>, sw: Switch, cols: seq<string>, seedbank: seq<string>, organ: seq<string>, k: string)
    requires OptionalCols(sw, cols)
    requires k in cols && Has(sw, k) && Usable(Read(item, sw, k))
    ensures forall x :: x in FieldNote(k, Read(item, sw, k), seedbank, organ) ==> x in FieldNotes(item, sw, cols, seedbank, organ)
  {
    var init := cols[..|cols| - 1];
    assert OptionalCols(sw, init);
    if k != cols[|cols| - 1] {
      assert k in init;
      FieldNotesHas(item, sw, init, seedbank, organ, k);
    }
  }

  /** Every comment of the columns comes from a usable column. */
  lemma {:induction false} FieldNoteFrom(item: seq<Value>, sw: Switch, cols: seq<string>, seedbank: seq<string>, organ: seq<string>, x: Value)
    requires OptionalCols(sw, cols)
    requires x in FieldNotes(item, sw, cols, seedbank, organ)
    ensures exists j :: 0 <= j < |cols| && Has(sw, cols[j]) && Usable(Read(item, sw, cols[j])) && x in FieldNote(cols[j], Read(item, sw, cols[j]), seedbank, organ)
  {
    var init := cols[..|cols| - 1];
    var n := |cols| - 1;
    assert OptionalCols(sw, init);
    if x in FieldNotes(item, sw, init, seedbank, organ) {
      FieldNoteFrom(item, sw, init, seedbank, organ, x);
      var j :| 0 <= j < |init| && Has(sw, init[j]) && Usable(Read(item, sw, init[j])) && x in FieldNote(init[j], Read(item, sw, init[j]), seedbank, organ);
      assert cols[j] == init[j];
    } else {
      assert Has(sw, cols[n]) && Usable(Read(item, sw, cols[n])) && x in FieldNote(cols[n], Read(item, sw, cols[n]), seedbank, organ);
    }
  }

  lemma FixedKeys(k: string)
    requires k in {"visit_id", "sample_nr", "species", "visit_date", "species_code", "comments"}
    ensures k !in QuadratFields && KindOf(k) == Copied
  {
  }

  /** Before the optional columns: the first keys, the date found, and the species code when it is one. */
  lemma CodedKeys(item: seq<Value>, sw: Switch, dating: Dating)
    requires QuadratSwitch(sw)
    ensures var c := Coded(item, sw, dating).rec;
      && Get(c, "visit_id") == Some(Read(item, sw, "visit_id"))
      && Get(c, "sample_nr") == Some(Read(item, sw, "sample_nr"))
      && Get(c, "species") == Some(Read(item, sw, "species"))
      && Get(c, "visit_date") == dating.date
      && (Has(c, "species_code") <==> IsSpeciesCode(Read(item, sw, "spcode")))
      && !Has(c, "comments")
  {
  }

  /** The keys before the optional columns are all copied ones, so their values fit. */
  lemma CodedFit(item: seq<Value>, sw: Switch, dating: Dating, seedbank: seq<string>, organ: seq<string>)
    requires QuadratSwitch(sw)
    ensures AllFit(Coded(item, sw, dating).rec, seedbank, organ)
  {
    var c := Coded(item, sw, dating).rec;
    forall k | Has(c, k)
      ensures KindOf(k) == Copied
    {
      assert k in {"visit_id", "sample_nr", "species", "visit_date", "species_code"};
      FixedKeys(k);
    }
  }

  /**
   * A record holds the visit, the sample number and the species of its
   * row; a species code exactly when the code is digits or an int; a
   * resprouting organ or seed bank only from its vocabulary; counts only
   * as ints; comments only when there are some.
   */
  lemma QuadratShape(item: seq<Value>, sw: Switch, lookup: seq<Record>, seedbank: seq<string>, organ: seq<string>)
    requires QuadratSwitch(sw)
    requires QuadratRecord(item, sw, lookup, seedbank, organ).Ok? && QuadratRecord(item, sw, lookup, seedbank, organ).value.Some?
    ensures var r := QuadratRecord(item, sw, lookup, seedbank, organ).value.value;
      && Get(r, "visit_id") == Some(Read(item, sw, "visit_id"))
      && Get(r, "sample_nr") == Some(Read(item, sw, "sample_nr"))
      && Get(r, "species") == Some(Read(item, sw, "species"))
      && Get(r, "visit_date") == VisitDate(item, sw, lookup).value.date
      && (Has(r, "species_code") <==> IsSpeciesCode(Read(item, sw, "spcode")))
      && (Has(r, "resprout_organ") ==> r.items["resprout_organ"].Str? && r.items["resprout_organ"].s in organ)
      && (Has(r, "seedbank") ==> r.items["seedbank"].Str? && r.items["seedbank"].s in seedbank)
      && (forall j :: 0 <= j < |CountKeys| && Has(r, CountKeys[j]) ==> r.items[CountKeys[j]].Int?)
      && (Has(r, "comments") ==> r.items["comments"].List? && r.items["comments"].items != [])
  {
    var dating := VisitDate(item, sw, lookup).value;
    var coded := Coded(item, sw, dating);
    var acc := Fields(coded, item, sw, QuadratFields, seedbank, organ).value;
    CodedKeys(item, sw, dating);
    CodedFit(item, sw, dating, seedbank, organ);
    FixedKeys("visit_id");
    FixedKeys("sample_nr");
    FixedKeys("species");
    FixedKeys("visit_date");
    FixedKeys("species_code");
    FixedKeys("comments");
    FieldsKeep(coded, item, sw, QuadratFields, seedbank, organ, "visit_id");
    FieldsKeep(coded, item, sw, QuadratFields, seedbank, organ, "sample_nr");
    FieldsKeep(coded, item, sw, QuadratFields, seedbank, organ, "species");
    FieldsKeep(coded, item, sw, QuadratFields, seedbank, organ, "visit_date");
    FieldsKeep(coded, item, sw, QuadratFields, seedbank, organ, "species_code");
    FieldsKeep(coded, item, sw, QuadratFields, seedbank, organ, "comments");
    FieldsFit(coded, item, sw, QuadratFields, seedbank, organ);
    FinishedKeys(acc, seedbank, organ);
  }

  lemma QuadratFieldsDistinct()
    ensures DistinctKeys(QuadratFields)
  {
  }

  /** The comments a record holds: the list under "comments", if any. */
  function Comments(r: Record): seq<Value> {
    if Has(r, "comments") && r.items["comments"].List? then r.items["comments"].items else []
  }

  /**
   * The comments of a record: the workbook and worksheet, the notes about
   * the visit date, then those of the optional columns, in column order.
   */
  lemma QuadratComments(item: seq<Value>, sw: Switch, lookup: seq<Record>, seedbank: seq<string>, organ: seq<string>, r: Record)
    requires QuadratSwitch(sw)
    requires QuadratRecord(item, sw, lookup, seedbank, organ) == Ok(Some(r))
    ensures Comments(r) == SourceComments(sw) + VisitDate(item, sw, lookup).value.notes + FieldNotes(item, sw, QuadratFields, seedbank, organ)
  {
    var dating := VisitDate(item, sw, lookup).value;
    var coded := Coded(item, sw, dating);
    var acc := Fields(coded, item, sw, QuadratFields, seedbank, organ).value;
    assert r == Finished(acc);
    CodedKeys(item, sw, dating);
    FixedKeys("comments");
    FieldsKeep(coded, item, sw, QuadratFields, seedbank, organ, "comments");
    FieldsComments(coded, item, sw, QuadratFields, seedbank, organ);
    FinishedComments(acc);
  }

  /** Each comment of the optional columns comes from a column the row fills. */
  lemma QuadratCommentsFrom(item: seq<Value>, sw: Switch, seedbank: seq<string>, organ: seq<string>)
    requires QuadratSwitch(sw)
    ensures forall x :: x in FieldNotes(item, sw, QuadratFields, seedbank, organ) ==>
      exists j :: (0 <= j < |QuadratFields| && Has(sw, QuadratFields[j]) && Usable(Read(item, sw, QuadratFields[j]))
        && x in FieldNote(QuadratFields[j], Read(item, sw, QuadratFields[j]), seedbank, organ))
  {
    forall x | x in FieldNotes(item, sw, QuadratFields, seedbank, organ)
      ensures exists j :: (0 <= j < |QuadratFields| && Has(sw, QuadratFields[j]) && Usable(Read(item, sw, QuadratFields[j]))
        && x in FieldNote(QuadratFields[j], Read(item, sw, QuadratFields[j]), seedbank, organ))
    {
      FieldNoteFrom(item, sw, QuadratFields, seedbank, organ, x);
    }
  }

  /** Adding the comments makes them the record's. */
  lemma FinishedComments(acc: Acc)
    requires !Has(acc.rec, "comments")
    ensures Comments(Finished(acc)) == acc.comms
  {
  }

  /**
   * Each optional column of a record: with a usable value in the row it
   * holds what the column's rule stores (see `FieldRules`), and the
   * comments hold what the rule notes; without one it is absent.
   */
  lemma QuadratFieldRules(item: seq<Value>, sw: Switch, lookup: seq<Record>, seedbank: seq<string>, organ: seq<string>, k: string, r: Record)
    requires QuadratSwitch(sw)
    requires QuadratRecord(item, sw, lookup, seedbank, organ) == Ok(Some(r))
    requires k in QuadratFields
    ensures && (Has(sw, k) && Usable(Read(item, sw, k)) ==>
        && FieldValue(k, Read(item, sw, k), seedbank, organ).Ok?
        && Get(r, k) == FieldValue(k, Read(item, sw, k), seedbank, organ).value
        && forall x :: x in FieldNote(k, Read(item, sw, k), seedbank, organ) ==> x in Comments(r))
      && (!(Has(sw, k) && Usable(Read(item, sw, k))) ==> !Has(r, k))
  {
    var dating := VisitDate(item, sw, lookup).value;
    var coded := Coded(item, sw, dating);
    QuadratFieldsDistinct();
    CodedLacks(item, sw, dating, k);
    FieldsGet(coded, item, sw, QuadratFields, seedbank, organ, k);
    QuadratComments(item, sw, lookup, seedbank, organ, r);
    if Has(sw, k) && Usable(Read(item, sw, k)) {
      FieldNotesHas(item, sw, QuadratFields, seedbank, organ, k);
    }
  }

  /** The record before the optional columns has none of their keys. */
  lemma CodedLacks(item: seq<Value>, sw: Switch, dating: Dating, k: string)
    requires QuadratSwitch(sw)
    requires k in QuadratFields
    ensures !Has(Coded(item, sw, dating).rec, k) && k != "comments"
  {
    assert Coded(item, sw, dating).rec.items.Keys <= {"visit_id", "sample_nr", "species", "visit_date", "species_code"};
    FixedKeys("visit_id");
    FixedKeys("sample_nr");
    FixedKeys("species");
    FixedKeys("visit_date");
    FixedKeys("species_code");
    FixedKeys("comments");
  }

  /**
   * How a vocabulary column shows a word the row gives: as written when it
   * is in the vocabulary, else capitalised when that is; otherwise absent,
   * and a comment says how it was written.
   */
  predicate VocabShown(v: Value, valid: seq<string>, lead: string, got: Option<Value>, comms: seq<Value>) {
    && v.Str?
    && (v.s in valid ==> got == Some(v))
    && (v.s !in valid && Capitalize(v.s) in valid ==> got == Some(Str(Capitalize(v.s))))
    && (v.s !in valid && Capitalize(v.s) !in valid ==> got == None && Str(lead + Show(v)) in comms)
  }

  /** How a count column shows the value the row gives: there exactly when it is an int; otherwise a comment says how it was written. */
  predicate CountShown(k: string, v: Value, got: Option<Value>, comms: seq<Value>) {
    && (got.Some? <==> v.Int?)
    && (v.Int? ==> got == Some(v))
    && (!v.Int? ==> Str(k + " written as " + Show(v)) in comms)
  }

  /** The resprouting organ and the seed bank of a record follow the vocabulary rule. */
  lemma QuadratVocab(item: seq<Value>, sw: Switch, lookup: seq<Record>, seedbank: seq<string>, organ: seq<string>, k: string, r: Record)
    requires QuadratSwitch(sw)
    requires QuadratRecord(item, sw, lookup, seedbank, organ) == Ok(Some(r))
    requires k in QuadratFields && KindOf(k) in {Organ, Seedbank}
    requires Has(sw, k) && Usable(Read(item, sw, k))
    ensures KindOf(k) == Organ ==> VocabShown(Read(item, sw, k), organ, "resprout organ written as ", Get(r, k), Comments(r))
    ensures KindOf(k) == Seedbank ==> VocabShown(Read(item, sw, k), seedbank, "seedbank written as ", Get(r, k), Comments(r))
  {
    QuadratFieldRules(item, sw, lookup, seedbank, organ, k, r);
    var v := Read(item, sw, k);
    FieldRules(k, v, seedbank, organ);
    if KindOf(k) == Organ {
      VocabIn(v, organ, "resprout organ written as ", FieldNote(k, v, seedbank, organ), Get(r, k), Comments(r));
    } else {
      VocabIn(v, seedbank, "seedbank written as ", FieldNote(k, v, seedbank, organ), Get(r, k), Comments(r));
    }
  }

  /** A vocabulary column that holds what its rule stores, with the rule's note among the comments, shows the word as the rule says. */
  lemma VocabIn(v: Value, valid: seq<string>, lead: string, note: seq<Value>, got: Option<Value>, comms: seq<Value>)
    requires VocabValue(v, valid).Ok? && got == VocabValue(v, valid).value
    requires VocabValue(v, valid) == Ok(None) ==> note == [Str(lead + Show(v))]
    requires forall x :: x in note ==> x in comms
    ensures VocabShown(v, valid, lead, got, comms)
  {
    if VocabValue(v, valid) == Ok(None) {
      assert Str(lead + Show(v)) in note;
    }
  }

  /** The counts of a record follow the count rule. */
  lemma QuadratCount(item: seq<Value>, sw: Switch, lookup: seq<Record>, seedbank: seq<string>, organ: seq<string>, k: string, r: Record)
    requires QuadratSwitch(sw)
    requires QuadratRecord(item, sw, lookup, seedbank, organ) == Ok(Some(r))
    requires k in QuadratFields && KindOf(k) == Count
    requires Has(sw, k) && Usable(Read(item, sw, k))
    ensures CountShown(k, Read(item, sw, k), Get(r, k), Comments(r))
  {
    QuadratFieldRules(item, sw, lookup, seedbank, organ, k, r);
    var v := Read(item, sw, k);
    CountIn(k, v, FieldNote(k, v, seedbank, organ), Get(r, k), Comments(r));
  }

  /** A count column that holds what its rule stores, with the rule's note among the comments, shows the value as the rule says. */
  lemma CountIn(k: string, v: Value, note: seq<Value>, got: Option<Value>, comms: seq<Value>)
    requires got == if v.Int? then Some(v) else None
    requires !v.Int? ==> note == [Str(k + " written as " + Show(v))]
    requires forall x :: x in note ==> x in comms
    ensures CountShown(k, v, got, comms)
  {
    if !v.Int? {
      assert Str(k + " written as " + Show(v)) in note;
    }
  }

  /** Adding the comments keeps every other key, and the vocabulary and count columns fitting. */
  lemma FinishedKeys(acc: Acc, seedbank: seq<string>, organ: seq<string>)
    requires AllFit(acc.rec, seedbank, organ) && !Has(acc.rec, "comments")
    ensures var r := Finished(acc);
      && (forall k :: k != "comments" ==> Get(r, k) == Get(acc.rec, k))
      && (Has(r, "resprout_organ") ==> r.items["resprout_organ"].Str? && r.items["resprout_organ"].s in organ)
      && (Has(r, "seedbank") ==> r.items["seedbank"].Str? && r.items["seedbank"].s in seedbank)
      && (forall j :: 0 <= j < |CountKeys| && Has(r, CountKeys[j]) ==> r.items[CountKeys[j]].Int?)
      && (Has(r, "comments") ==> r.items["comments"].List? && r.items["comments"].items != [])
  {
    var r := Finished(acc);
    assert KindOf("resprout_organ") == Organ && KindOf("seedbank") == Seedbank;
    assert Has(r, "resprout_organ") ==> Has(acc.rec, "resprout_organ");
    assert Has(r, "seedbank") ==> Has(acc.rec, "seedbank");
    forall j | 0 <= j < |CountKeys| && Has(r, CountKeys[j])
      ensures r.items[CountKeys[j]].Int?
    {
      assert CountKeys[j] in CountKeys;
      assert KindOf(CountKeys[j]) == Count;
      assert CountKeys[j] != "comments";
    }
  }

  /**
   * The visit date is the row's own when it is a datetime; otherwise it is
   * inherited (as a date when it is a datetime) from the one lookup entry
   * of the same visit and replicate number, when exactly one matches and
   * it has a date; otherwise there is none, and a note says so.
   */
  lemma VisitDateCases(item: seq<Value>, sw: Switch, lookup: seq<Record>)
    requires QuadratSwitch(sw)
    requires VisitDate(item, sw, lookup).Ok?
    ensures var d := RowDate(item, sw);
      var found := Matches(lookup, Read(item, sw, "visit_id"), Replicate(item, sw));
      var date := VisitDate(item, sw, lookup).value.date;
      && (d.DateTime? ==> date == Some(Day(d.date)))
      && (!d.DateTime? ==> found.Ok?)
      && (!d.DateTime? && |found.value| == 1 && Has(found.value[0], "visit_date") ==>
            var v := found.value[0].items["visit_date"];
            date == Some(if v.DateTime? then Day(v.date) else v))
      && (!d.DateTime? && !(|found.value| == 1 && Has(found.value[0], "visit_date")) ==>
            date == None && |VisitDate(item, sw, lookup).value.notes| == 1)
  {
  }

  /** A sample with neither a datetime nor a replicate number always raises. */
  lemma UnboundReplicate(item: seq<Value>, sw: Switch, lookup: seq<Record>)
    requires QuadratSwitch(sw)
    requires !RowDate(item, sw).DateTime?
    requires Replicate(item, sw).Unbound?
    ensures VisitDate(item, sw, lookup).Err?
  {
    var found := Matches(lookup, Read(item, sw, "visit_id"), Unbound);
    if found.Ok? {
      MatchesFilter(lookup, Read(item, sw, "visit_id"), Unbound);
    }
  }

  // ---------------------------------------------------------------------
  // The function as written

  /** `create_quadrat_sample_record`. */
  method CreateQuadratSampleRecord(item: seq<Value>, sw: Switch, lookup: seq<Record>, validSeedbank: seq<string>, validOrgan: seq<string>)
    returns (r: Result<Option<Record>>)
    requires QuadratSwitch(sw)
    ensures r == QuadratRecord(item, sw, lookup, validSeedbank, validOrgan)
  {
    var species := Read(item, sw, "species");
    var spcode := Read(item, sw, "spcode");
    if species == Null {
      return Ok(None);
    }
    var record := BaseRecord(item, sw);
    var comms := SourceComments(sw);
    var dating := ReadVisitDate(item, sw, lookup);
    if dating.Err? {
      return Err(dating.error);
    }
    if dating.value.date.Some? {
      record := Put(record, "visit_date", dating.value.date.value);
    }
    comms := comms + dating.value.notes;
    if IsSpeciesCode(spcode) {
      record := Put(record, "species_code", spcode);
    }
    assert Acc(record, comms) == Coded(item, sw, dating.value);
    var acc := ReadFields(Acc(record, comms), item, sw, validSeedbank, validOrgan);
    if acc.Err? {
      return Err(acc.error);
    }
    record, comms := acc.value.rec, acc.value.comms;
    if |comms| > 0 {
      record := Put(record, "comments", List(comms));
    }
    return Ok(Some(record));
  }

  /** The visit date, from the row or from the lookup list. */
  method ReadVisitDate(item: seq<Value>, sw: Switch, lookup: seq<Record>) returns (r: Result<Dating>)
    requires QuadratSwitch(sw)
    ensures r == VisitDate(item, sw, lookup)
  {
    var visitDate := Null;
    if Has(sw, "date") {
      visitDate := Read(item, sw, "date");
    }
    if visitDate.DateTime? {
      return Ok(Dating(Some(Day(visitDate.date)), []));
    }
    var rep := Replicate(item, sw);
    var found := Filter(lookup, Read(item, sw, "visit_id"), rep);
    if found.Err? {
      return Err(found.error);
    }
    r := LookupDate(found.value, rep);
  }

  /** `list(filter(lambda n: ..., lookup))`. */
  method Filter(lookup: seq<Record>, visitId: Value, rep: Binding) returns (r: Result<seq<Record>>)
    ensures r == Matches(lookup, visitId, rep)
  {
    var found: seq<Record> := [];
    for j := 0 to |lookup|
      invariant Matches(lookup[..j], visitId, rep) == Ok(found)
    {
      assert lookup[..j + 1][..j] == lookup[..j];
      var m := Match(lookup[j], visitId, rep);
      if m.Err? {
        MatchesStop(lookup, visitId, rep, j + 1);
        return Err(m.error);
      }
      if m.value {
        found := found + [lookup[j]];
      }
    }
    assert lookup[..|lookup|] == lookup;
    return Ok(found);
  }

  lemma {:induction false} MatchesStop(lookup: seq<Record>, visitId: Value, rep: Binding, n: nat)
    requires n <= |lookup| && Matches(lookup[..n], visitId, rep).Err?
    ensures Matches(lookup, visitId, rep) == Matches(lookup[..n], visitId, rep)
  {
    if n < |lookup| {
      var init := lookup[..|lookup| - 1];
      assert init[..n] == lookup[..n];
      MatchesStop(init, visitId, rep, n);
    } else {
      assert lookup[..n] == lookup;
    }
  }

  lemma {:induction false} FieldsStop(acc: Acc, item: seq<Value>, sw: Switch, cols: seq<string>, seedbank: seq<string>, organ: seq<string>, n: nat)
    requires OptionalCols(sw, cols)
    requires n <= |cols| && OptionalCols(sw, cols[..n]) && Fields(acc, item, sw, cols[..n], seedbank, organ).Err?
    ensures Fields(acc, item, sw, cols, seedbank, organ) == Fields(acc, item, sw, cols[..n], seedbank, organ)
  {
    if n < |cols| {
      var init := cols[..|cols| - 1];
      assert init[..n] == cols[..n];
      assert OptionalCols(sw, init);
      FieldsStop(acc, item, sw, init, seedbank, organ, n);
    } else {
      assert cols[..n] == cols;
    }
  }

  /** The loop over the optional columns. */
  method ReadFields(acc: Acc, item: seq<Value>, sw: Switch, validSeedbank: seq<string>, validOrgan: seq<string>) returns (r: Result<Acc>)
    requires QuadratSwitch(sw)
    ensures r == Fields(acc, item, sw, QuadratFields, validSeedbank, validOrgan)
  {
    var cur := acc;
    for j := 0 to |QuadratFields|
      invariant OptionalCols(sw, QuadratFields[..j])
      invariant Fields(acc, item, sw, QuadratFields[..j], validSeedbank, validOrgan) == Ok(cur)
    {
      var next := FieldTurn(acc, item, sw, j, cur, validSeedbank, validOrgan);
      if next.Err? {
        FieldsStop(acc, item, sw, QuadratFields, validSeedbank, validOrgan, j + 1);
        return next;
      }
      cur := next.value;
    }
    assert QuadratFields[..|QuadratFields|] == QuadratFields;
    return Ok(cur);
  }

  /** One turn of the loop: `if k in sw.keys()`, then a usable value. */
  method FieldTurn(acc: Acc, item: seq<Value>, sw: Switch, j: nat, cur: Acc, validSeedbank: seq<string>, validOrgan: seq<string>)
    returns (r: Result<Acc>)
    requires QuadratSwitch(sw)
    requires j < |QuadratFields| && OptionalCols(sw, QuadratFields[..j])
    requires Fields(acc, item, sw, QuadratFields[..j], validSeedbank, validOrgan) == Ok(cur)
    ensures OptionalCols(sw, QuadratFields[..j + 1])
    ensures r == Fields(acc, item, sw, QuadratFields[..j + 1], validSeedbank, validOrgan)
  {
    var k := QuadratFields[j];
    assert QuadratFields[..j + 1][..j] == QuadratFields[..j];
    assert OptionalCols(sw, QuadratFields[..j + 1]);
    if Has(sw, k) {
      var vals := Read(item, sw, k);
      if vals != Null && vals != Str("na") && vals != Str("NA") {
        r := ReadField(cur, k, vals, validSeedbank, validOrgan);
        return;
      }
    }
    return Ok(cur);
  }

  /** The branches of the loop's body, on one usable value. */
  method ReadField(acc: Acc, k: string, vals: Value, validSeedbank: seq<string>, validOrgan: seq<string>) returns (r: Result<Acc>)
    ensures r == FieldStep(acc, k, vals, validSeedbank, validOrgan)
  {
    var record, comms := acc.rec, acc.comms;
    assert acc.comms + [] == acc.comms;
    if k == "resprout_organ" {
      if vals.Str? && vals.s in validOrgan {
        record := Put(record, k, vals);
      } else if !vals.Str? {
        return Err("AttributeError");
      } else if Capitalize(vals.s) in validOrgan {
        record := Put(record, k, Str(Capitalize(vals.s)));
      } else {
        comms := comms + [Str("resprout organ written as " + Show(vals))];
      }
    } else if k == "seedbank" {
      if vals.Str? && vals.s in validSeedbank {
        record := Put(record, k, vals);
      } else if !vals.Str? {
        return Err("AttributeError");
      } else if Capitalize(vals.s) in validSeedbank {
        record := Put(record, k, Str(Capitalize(vals.s)));
      } else {
        comms := comms + [Str("seedbank written as " + Show(vals))];
      }
    } else if k == "notes" {
      if vals.Int? || vals.Float? {
        comms := comms + [Str("Comment column included a numeric value of " + Show(vals))];
      } else {
        comms := comms + [vals];
      }
    } else if k in CountKeys {
      if vals.Int? {
        record := Put(record, k, vals);
      } else {
        comms := comms + [Str(k + " written as " + Show(vals))];
      }
    } else {
      record := Put(record, k, vals);
    }
    return Ok(Acc(record, comms));
  }
}
