/**
 * The resprouting records of one species row of the NSW Flora Fire Response
 * Database workbook (lib/nswfireflora_util.py, `read_rows_resprouting`): a
 * summary record reclassifying the fire response column, then one record per
 * item of the NFRR column (column BN) and one per item of the column of other
 * regional codes (column BO).
 */
module NswResprouting {
  import opened Wrappers
  import opened Text
  import opened PyValues
  import opened NswReferences
  import opened NswTraitValues
  import Seqs

  /** An entry of the regional categories `reg_cats`: its NFRR code, its roman-numeral code and its category. */
  datatype RegCat = RegCat(nfrrCode: Value, otherCode: Value, category: Value)

  /** The cells of a row that the function reads, with the variable name from row 1. */
  datatype Row = Row(varname: Value, value: Value, comment: Value, spname: Value, spcode: Value, nfrr: Cell, other: Value)

  /** Columns J (fire response) and K (comment), A and B (species), BN (NFRR) and BO (other codes). */
  function ReadRow(sheet: Sheet, row: nat): Row {
    Row(CellAt(sheet, "J", 1).value, CellAt(sheet, "J", row).value, CellAt(sheet, "K", row).value,
        CellAt(sheet, "A", row).value, CellAt(sheet, "B", row).value, CellAt(sheet, "BN", row), CellAt(sheet, "BO", row).value)
  }

  /** The share of plants that resprout: the classes the codes are reclassified into. */
  datatype Share = NoneResprout | Few | Half | Most | AllResprout | Unknown

  /** The text stored as `norm_value`. */
  function Label(c: Share): string {
    match c
    case NoneResprout => "None"
    case Few => "Few"
    case Half => "Half"
    case Most => "Most"
    case AllResprout => "All"
    case Unknown => "Unknown"
  }

  /** The reclassification of the fire response codes. */
  const Switcher: map<string, Share> := map["S" := NoneResprout, "Sr" := Few, "S/R" := Half, "Rs" := Most, "R" := AllResprout]

  /** `switcher.get(varvalue, "Unknown")`. */
  function Reclassify(v: Value): (c: Share)
    ensures c != Unknown <==> v.Str? && v.s in Switcher
  {
    if v.Str? && v.s in Switcher then Switcher[v.s] else Unknown
  }

  /** The NFRR groups whose species do not resprout, and those whose species all do; any other number is unknown. */
  function NfrrClass(q: string): Share {
    if q in {"1", "2", "3", "8"} then NoneResprout
    else if q in {"4", "5", "6", "7", "9", "11"} then AllResprout
    else Unknown
  }

  /** The same rule for the roman-numeral codes. */
  function RomanClass(q: string): Share {
    if q in {"I", "II", "III", "VIII"} then NoneResprout
    else if q in {"IV", "V", "VI", "VII", "IX", "XI"} then AllResprout
    else Unknown
  }

  /** The categories of the entries whose NFRR code (or, without `nfrr`, roman code) equals `key`, in order. */
  function Categories(cats: seq<RegCat>, key: Value, nfrr: bool): seq<Value>
  {
    if cats == [] then []
    else
      var code := if nfrr then cats[0].nfrrCode else cats[0].otherCode;
      (if code == key then [cats[0].category] else []) + Categories(cats[1..], key, nfrr)
  }

  /** Every category found belongs to an entry with that code. */
  lemma {:induction false} CategoriesSound(cats: seq<RegCat>, key: Value, nfrr: bool, v: Value)
    requires v in Categories(cats, key, nfrr)
    ensures exists c :: c in cats && (if nfrr then c.nfrrCode else c.otherCode) == key && c.category == v
  {
    var code := if nfrr then cats[0].nfrrCode else cats[0].otherCode;
    if !(code == key && v == cats[0].category) {
      CategoriesSound(cats[1..], key, nfrr, v);
      var c :| c in cats[1..] && (if nfrr then c.nfrrCode else c.otherCode) == key && c.category == v;
      assert c in cats;
    }
  }

  /** The two notes every record of a row starts with. */
  const BaseNotes: seq<Note> := [Reclassified, ScriptExtraction]

  /** A key set only when the cell is not empty. */
  function Present(v: Value): Option<Value> {
    if v != Null then Some(v) else None
  }

  /**
   * A copy of the row's base record with the parts each kind of record
   * changes: its raw value, its class, the sources and additional notes it
   * adds, and its weight. Empty source and note lists are dropped.
   */
  function RowRecord(row: Row, raw: seq<Value>, norm: Share, sources: seq<string>, extra: seq<Note>,
                     weight: int, weightNote: Note): TraitRecord
  {
    RawRecord(raw).(
      mainSource := Some(MainSource),
      normValue := Some(Str(Label(norm))),
      originalSources := if |sources| > 0 then Some(sources) else None,
      originalNotes := if row.comment != Null then Some([row.comment]) else None,
      additionalNotes := Some(BaseNotes + (if row.comment != Null then [SeeComments] else []) + extra),
      weight := Some(weight),
      weightNotes := Some([ScriptImport, weightNote]),
      species := Present(row.spname),
      speciesCode := Present(row.spcode))
  }

  /** The summary record: the reclassified fire response, with weight 10. */
  function SummaryRecord(row: Row): TraitRecord {
    RowRecord(row, [row.varname, row.value], Reclassify(row.value), [], [], 10, DefaultOfTen)
  }

  /** The text each item record adds to its raw value. */
  function Overall(row: Row): Value {
    Str("Overall value of fireresponse column is " + Show(row.value))
  }

  /** The items of the NFRR column: "FO(1)" is first rewritten to "FOI", so that it is not read as group 1. */
  function NfrrItems(s: string): seq<string> {
    Split(Strip(ReplaceAll(s, "FO(1)", "FOI"), Blank), ' ')
  }

  /** The notes an item of the NFRR column adds: that it was extracted, and what the cell's font says. */
  function NfrrExtra(font: Font): seq<Note> {
    [FromComments] + (if font.color.Some? then [Amended] else []) + (if font.strike.Some? then [Discarded] else [])
  }

  /** The group an item names: its code and the category the regional categories give it. */
  datatype Group = Group(code: string, category: Value)

  /** The raw value of an item record: the group and its category when the item names one, the row's otherwise. */
  function ItemRaw(row: Row, g: Option<Group>): (raw: seq<Value>)
    ensures |raw| == 3 && raw[2] == Overall(row)
  {
    if g.Some? then [Str("VA Group " + g.value.code), g.value.category, Overall(row)]
    else [row.varname, row.value, Overall(row)]
  }

  /** An NFRR item names a group when it has exactly one number and exactly one entry has that NFRR code. */
  function NfrrGroup(item: string, cats: seq<RegCat>): (g: Option<Group>)
    ensures g.Some? ==> |Runs(item, Digit)| == 1 && g.value.code == Runs(item, Digit)[0]
  {
    var ds := Runs(item, Digit);
    if |ds| != 1 then None
    else
      var group := Categories(cats, Int(ParseNat(ds[0])), true);
      if |group| == 1 then Some(Group(ds[0], group[0])) else None
  }

  /** The class of an NFRR item: that of its number when it has exactly one, the reclassified fire response otherwise. */
  function NfrrShare(row: Row, item: string): Share {
    var ds := Runs(item, Digit);
    if |ds| == 1 then NfrrClass(ds[0]) else Reclassify(row.value)
  }

  /** The source of an NFRR item: the entry of `ref1` for its capitalised code, when it has exactly one and one entry has it. */
  function NfrrSources(item: string, ref1: seq<RefEntry>): (found: seq<string>)
    ensures |found| <= 1
  {
    var us := Runs(item, Upper);
    var found := if |us| == 1 then Matches(ref1, Str(us[0])) else [];
    if |found| == 1 then found else []
  }

  /**
   * An item of the NFRR column: a single number in it names a group, whose
   * category replaces the raw value when exactly one entry has that code, and
   * whose class replaces the reclassified value; a single capitalised code in
   * it is a reference, kept when exactly one entry of `ref1` has it.
   */
  function NfrrRecord(row: Row, item: string, cats: seq<RegCat>, ref1: seq<RefEntry>): TraitRecord {
    RowRecord(row, ItemRaw(row, NfrrGroup(item, cats)), NfrrShare(row, item), NfrrSources(item, ref1),
              NfrrExtra(row.nfrr.font), 1, DefaultOfOne)
  }

  /** An item of the column of other codes names a missing group or a missing reference. */
  predicate OtherFails(item: string, cats: seq<RegCat>, ref2: seq<RefEntry>) {
    || (|Runs(item, Roman)| == 1 && |Categories(cats, Str(Runs(item, Roman)[0]), false)| == 0)
    || (|Runs(item, Digit)| == 1 && |Matches(ref2, Int(ParseNat(Runs(item, Digit)[0])))| == 0)
  }

  /** An item of the other column names the first group with its roman numeral, when it has exactly one. */
  function OtherGroup(item: string, cats: seq<RegCat>): (g: Option<Group>)
    ensures g.Some? ==> |Runs(item, Roman)| == 1 && g.value.code == Runs(item, Roman)[0]
  {
    var rs := Runs(item, Roman);
    if |rs| != 1 then None
    else
      var group := Categories(cats, Str(rs[0]), false);
      if |group| > 0 then Some(Group(rs[0], group[0])) else None
  }

  /** The class of an item of the other column: that of its roman numeral when it has exactly one, the fire response's otherwise. */
  function OtherShare(row: Row, item: string): Share {
    var rs := Runs(item, Roman);
    if |rs| == 1 then RomanClass(rs[0]) else Reclassify(row.value)
  }

  /** The source of an item of the other column: the first entry of `ref2` for its number, when it has exactly one. */
  function OtherSources(item: string, ref2: seq<RefEntry>): (found: seq<string>)
    ensures |found| <= 1
  {
    var ds := Runs(item, Digit);
    var found := if |ds| == 1 then Matches(ref2, Int(ParseNat(ds[0]))) else [];
    if |ds| == 1 && |found| > 0 then [found[0]] else []
  }

  /**
   * An item of the column of other codes: a single roman numeral names a
   * group, which must exist; a single number is a reference of `ref2`, which
   * must exist too. A missing one raises IndexError.
   */
  function OtherRecord(row: Row, item: string, cats: seq<RegCat>, ref2: seq<RefEntry>): (r: Result<TraitRecord>)
    ensures r.Err? <==> OtherFails(item, cats, ref2)
  {
    if OtherFails(item, cats, ref2) then Err("IndexError")
    else Ok(RowRecord(row, ItemRaw(row, OtherGroup(item, cats)), OtherShare(row, item), OtherSources(item, ref2),
                      [FromComments], 1, DefaultOfOne))
  }

  /** The step of the loop over the NFRR items. */
  function NfrrStep(row: Row, cats: seq<RegCat>, ref1: seq<RefEntry>): string -> TraitRecord {
    item => NfrrRecord(row, item, cats, ref1)
  }

  /** The step of the loop over the other items. */
  function OtherStep(row: Row, cats: seq<RegCat>, ref2: seq<RefEntry>): string -> Result<TraitRecord> {
    item => OtherRecord(row, item, cats, ref2)
  }

  /**
   * What `replace('FO(1)', 'FOI')` raises on a cell that is not text: a date
   * has a `replace` of its own that refuses text arguments with a TypeError;
   * anything else has no `replace` at all.
   */
  function ReplaceError(v: Value): (e: string)
    ensures e == "TypeError" <==> v.Day? || v.DateTime?
    ensures e != "TypeError" ==> e == "AttributeError"
  {
    if v.Day? || v.DateTime? then "TypeError" else "AttributeError"
  }

  /** The records of the NFRR column: none for an empty cell, the error of `replace` for one that is not text. */
  function NfrrColumn(row: Row, cats: seq<RegCat>, ref1: seq<RefEntry>): Result<seq<TraitRecord>> {
    match row.nfrr.value
    case Null => Ok([])
    case Str(s) => Ok(Seqs.Each(NfrrItems(s), NfrrStep(row, cats, ref1)))
    case _ => Err(ReplaceError(row.nfrr.value))
  }

  /** The records of the column of other codes, on the same terms; the loop stops at the first IndexError. */
  function OtherColumn(row: Row, cats: seq<RegCat>, ref2: seq<RefEntry>): Result<seq<TraitRecord>> {
    match row.other
    case Null => Ok([])
    case Str(s) => Seqs.TryEach(Split(s, ' '), OtherStep(row, cats, ref2))
    case _ => Err("AttributeError")
  }

  /** The items of a column: those of the NFRR column after the rewrite, those of the other column as they are. */
  function Items(v: Value, nfrr: bool): seq<string> {
    if !v.Str? then [] else if nfrr then NfrrItems(v.s) else Split(v.s, ' ')
  }

  /** `read_rows_resprouting`: None for a row without a fire response, otherwise its records or the exception raised. */
  function ResproutRecords(sheet: Sheet, rowIndex: nat, cats: seq<RegCat>, ref1: seq<RefEntry>, ref2: seq<RefEntry>)
    : Result<Option<seq<TraitRecord>>>
  {
    var row := ReadRow(sheet, rowIndex);
    if row.value == Null then Ok(None)
    else RowColumns(row, cats, ref1, ref2)
  }

  /** The records of a row with a fire response: the summary, then the NFRR items, then the other items. */
  function RowColumns(row: Row, cats: seq<RegCat>, ref1: seq<RefEntry>, ref2: seq<RefEntry>): Result<Option<seq<TraitRecord>>> {
    var nfrr := NfrrColumn(row, cats, ref1);
    if nfrr.Err? then Err(nfrr.error)
    else
      var other := OtherColumn(row, cats, ref2);
      if other.Err? then Err(other.error)
      else Ok(Some([SummaryRecord(row)] + nfrr.value + other.value))
  }

  // ---------------------------------------------------------------------
  // Properties

  /**
   * Every record of a row has the workbook as main source, the row's species
   * when it is given, the two base notes first, the comment as its only
   * original note when there is one, and the script's weight note.
   */
  predicate FromRow(row: Row, r: TraitRecord) {
    && r.mainSource == Some(MainSource)
    && r.species == Present(row.spname) && r.speciesCode == Present(row.spcode)
    && r.additionalNotes.Some? && |r.additionalNotes.value| >= 2 && r.additionalNotes.value[..2] == BaseNotes
    && (row.comment != Null ==> r.originalNotes == Some([row.comment]) && SeeComments in r.additionalNotes.value)
    && (row.comment == Null ==> r.originalNotes.None?)
    && r.weightNotes.Some? && |r.weightNotes.value| == 2 && r.weightNotes.value[0] == ScriptImport
  }

  lemma RowRecordFromRow(row: Row, raw: seq<Value>, norm: Share, sources: seq<string>, extra: seq<Note>,
                         weight: int, weightNote: Note)
    ensures var r := RowRecord(row, raw, norm, sources, extra, weight, weightNote);
      && FromRow(row, r)
      && r.rawValue == raw && r.normValue == Some(Str(Label(norm)))
      && r.weight == Some(weight) && r.weightNotes == Some([ScriptImport, weightNote])
      && (r.originalSources.Some? <==> |sources| > 0)
  {
    var notes := BaseNotes + (if row.comment != Null then [SeeComments] else []) + extra;
    assert notes[..2] == BaseNotes;
    assert row.comment != Null ==> notes[2] == SeeComments;
  }

  /** The summary record has weight 10, the summary weight note, the reclassified value and no sources. */
  lemma SummaryShape(row: Row)
    ensures var r := SummaryRecord(row);
      && FromRow(row, r)
      && r.rawValue == [row.varname, row.value]
      && r.weight == Some(10) && r.weightNotes == Some([ScriptImport, DefaultOfTen])
      && r.normValue == Some(Str(Label(Reclassify(row.value))))
      && r.originalSources.None?
  {
    RowRecordFromRow(row, [row.varname, row.value], Reclassify(row.value), [], [], 10, DefaultOfTen);
  }

  /** What every item record of a row shares: weight 1 and the overall fire response at the end of its raw value. */
  predicate ItemRecord(row: Row, r: TraitRecord) {
    && FromRow(row, r)
    && r.weight == Some(1) && r.weightNotes == Some([ScriptImport, DefaultOfOne])
    && |r.rawValue| == 3 && r.rawValue[2] == Overall(row)
  }

  /**
   * An NFRR item record names its group in its raw value when it names one,
   * takes the class of its number when it has exactly one, keeps the
   * reclassified fire response otherwise, and has at most one source.
   */
  lemma NfrrRecordShape(row: Row, item: string, cats: seq<RegCat>, ref1: seq<RefEntry>)
    ensures var r := NfrrRecord(row, item, cats, ref1); var g := NfrrGroup(item, cats);
      && ItemRecord(row, r)
      && r.rawValue[0] == (if g.Some? then Str("VA Group " + Runs(item, Digit)[0]) else row.varname)
      && r.normValue == Some(Str(Label(if |Runs(item, Digit)| == 1 then NfrrClass(Runs(item, Digit)[0]) else Reclassify(row.value))))
      && (r.originalSources.Some? ==> |r.originalSources.value| == 1)
  {
    RowRecordFromRow(row, ItemRaw(row, NfrrGroup(item, cats)), NfrrShare(row, item), NfrrSources(item, ref1),
                     NfrrExtra(row.nfrr.font), 1, DefaultOfOne);
  }

  /**
   * A record of the other column names the group of its roman numeral when
   * it has exactly one and keeps the row's raw value otherwise, takes that
   * numeral's class or the reclassified fire response, and has one source
   * exactly when it has exactly one number.
   */
  lemma OtherRecordShape(row: Row, item: string, cats: seq<RegCat>, ref2: seq<RefEntry>)
    requires !OtherFails(item, cats, ref2)
    ensures var r := OtherRecord(row, item, cats, ref2).value;
      && ItemRecord(row, r)
      && (|Runs(item, Roman)| == 1 ==> r.rawValue[0] == Str("VA Group " + Runs(item, Roman)[0]))
      && (|Runs(item, Roman)| != 1 ==> r.rawValue[..2] == [row.varname, row.value])
      && r.normValue == Some(Str(Label(if |Runs(item, Roman)| == 1 then RomanClass(Runs(item, Roman)[0]) else Reclassify(row.value))))
      && (r.originalSources.Some? <==> |Runs(item, Digit)| == 1)
  {
    RowRecordFromRow(row, ItemRaw(row, OtherGroup(item, cats)), OtherShare(row, item), OtherSources(item, ref2),
                     [FromComments], 1, DefaultOfOne);
  }

  /** The NFRR column gives one item record per item. */
  lemma NfrrColumnItems(row: Row, cats: seq<RegCat>, ref1: seq<RefEntry>)
    requires NfrrColumn(row, cats, ref1).Ok?
    ensures var rs := NfrrColumn(row, cats, ref1).value;
      && |rs| == |Items(row.nfrr.value, true)|
      && forall k :: 0 <= k < |rs| ==> ItemRecord(row, rs[k])
  {
    if row.nfrr.value.Str? {
      var items := NfrrItems(row.nfrr.value.s);
      var rs := Seqs.Each(items, NfrrStep(row, cats, ref1));
      Seqs.EachAt(items, NfrrStep(row, cats, ref1));
      forall k | 0 <= k < |rs| ensures ItemRecord(row, rs[k]) {
        NfrrRecordShape(row, items[k], cats, ref1);
      }
    }
  }

  /** The other column, when it raises nothing, gives one item record per item. */
  lemma OtherColumnItems(row: Row, cats: seq<RegCat>, ref2: seq<RefEntry>)
    requires OtherColumn(row, cats, ref2).Ok?
    ensures var rs := OtherColumn(row, cats, ref2).value;
      && |rs| == |Items(row.other, false)|
      && forall k :: 0 <= k < |rs| ==> ItemRecord(row, rs[k])
  {
    if row.other.Str? {
      var items := Split(row.other.s, ' ');
      var rs := Seqs.TryEach(items, OtherStep(row, cats, ref2)).value;
      Seqs.TryEachAt(items, OtherStep(row, cats, ref2));
      forall k | 0 <= k < |rs| ensures ItemRecord(row, rs[k]) {
        OtherRecordShape(row, items[k], cats, ref2);
      }
    }
  }

  /** The other column raises exactly when it is not text or one of its items names a missing group or reference. */
  lemma OtherColumnFails(row: Row, cats: seq<RegCat>, ref2: seq<RefEntry>)
    ensures OtherColumn(row, cats, ref2).Err? <==>
      || (row.other != Null && !row.other.Str?)
      || (row.other.Str? && exists j :: 0 <= j < |Split(row.other.s, ' ')| && OtherFails(Split(row.other.s, ' ')[j], cats, ref2))
  {
    if row.other.Str? {
      ItemsFail(row, Split(row.other.s, ' '), cats, ref2);
    }
  }

  /** The loop over the items of the other column raises exactly when one of them fails. */
  lemma ItemsFail(row: Row, items: seq<string>, cats: seq<RegCat>, ref2: seq<RefEntry>)
    ensures Seqs.TryEach(items, OtherStep(row, cats, ref2)).Err? <==> exists j :: 0 <= j < |items| && OtherFails(items[j], cats, ref2)
  {
    var f := OtherStep(row, cats, ref2);
    Seqs.TryEachFails(items, f);
    forall j | 0 <= j < |items|
      ensures f(items[j]).Err? <==> OtherFails(items[j], cats, ref2)
    {
      OtherStepFails(row, cats, ref2, items[j]);
    }
  }

  /** The step of the loop over the other column raises exactly when its item fails. */
  lemma OtherStepFails(row: Row, cats: seq<RegCat>, ref2: seq<RefEntry>, item: string)
    ensures OtherStep(row, cats, ref2)(item).Err? <==> OtherFails(item, cats, ref2)
  {
    assert OtherStep(row, cats, ref2)(item) == OtherRecord(row, item, cats, ref2);
  }

  /**
   * The records of a row come in order: the summary record, one record per
   * NFRR item, one per other item, each an item record of the row.
   */
  lemma RowLayout(row: Row, cats: seq<RegCat>, ref1: seq<RefEntry>, ref2: seq<RefEntry>)
    requires RowColumns(row, cats, ref1, ref2).Ok?
    ensures var rs := RowColumns(row, cats, ref1, ref2).value.value;
      && |rs| == 1 + |Items(row.nfrr.value, true)| + |Items(row.other, false)|
      && rs[0] == SummaryRecord(row)
      && forall k :: 1 <= k < |rs| ==> ItemRecord(row, rs[k])
  {
    NfrrColumnItems(row, cats, ref1);
    OtherColumnItems(row, cats, ref2);
    ItemsJoined(row, SummaryRecord(row), NfrrColumn(row, cats, ref1).value, OtherColumn(row, cats, ref2).value);
  }

  /** The summary record followed by the item records of both columns. */
  lemma ItemsJoined(row: Row, summary: TraitRecord, nfrr: seq<TraitRecord>, other: seq<TraitRecord>)
    requires forall k :: 0 <= k < |nfrr| ==> ItemRecord(row, nfrr[k])
    requires forall k :: 0 <= k < |other| ==> ItemRecord(row, other[k])
    ensures var rs := [summary] + nfrr + other;
      && |rs| == 1 + |nfrr| + |other| && rs[0] == summary
      && forall k :: 1 <= k < |rs| ==> ItemRecord(row, rs[k])
  {
    var rs := [summary] + nfrr + other;
    forall k | 1 <= k < |rs| ensures ItemRecord(row, rs[k]) {
      if k < 1 + |nfrr| {
        assert rs[k] == nfrr[k - 1];
      } else {
        assert rs[k] == other[k - 1 - |nfrr|];
      }
    }
  }

  /**
   * A row with a fire response raises exactly when one of its two code
   * columns holds something other than text, or an item of the other column
   * names a missing group or reference.
   */
  lemma RowFails(row: Row, cats: seq<RegCat>, ref1: seq<RefEntry>, ref2: seq<RefEntry>)
    ensures RowColumns(row, cats, ref1, ref2).Err? <==>
      || (row.nfrr.value != Null && !row.nfrr.value.Str?)
      || (row.other != Null && !row.other.Str?)
      || (row.other.Str? && exists j :: 0 <= j < |Split(row.other.s, ' ')| && OtherFails(Split(row.other.s, ' ')[j], cats, ref2))
  {
    OtherColumnFails(row, cats, ref2);
  }

  // ---------------------------------------------------------------------
  // The imperative code

  /** `read_rows_resprouting`. */
  method ReadRowsResprouting(sheet: Sheet, rowIndex: nat, cats: seq<RegCat>, ref1: seq<RefEntry>, ref2: seq<RefEntry>)
    returns (r: Result<Option<seq<TraitRecord>>>)
    ensures r == ResproutRecords(sheet, rowIndex, cats, ref1, ref2)
  {
    var row := ReadRow(sheet, rowIndex);
    if row.value == Null {
      return Ok(None);
    }
    r := ReadColumns(row, cats, ref1, ref2);
  }

  /** The part of `read_rows_resprouting` after the check for an empty fire response. */
  method ReadColumns(row: Row, cats: seq<RegCat>, ref1: seq<RefEntry>, ref2: seq<RefEntry>)
    returns (r: Result<Option<seq<TraitRecord>>>)
    ensures r == RowColumns(row, cats, ref1, ref2)
  {
    var nfrrRecords: seq<TraitRecord> := [];
    var nfrr := row.nfrr.value;
    if nfrr != Null {
      if !nfrr.Str? {
        return Err(ReplaceError(nfrr));
      }
      nfrrRecords := NfrrLoop(row, NfrrItems(nfrr.s), cats, ref1);
    }
    var otherRecords: seq<TraitRecord> := [];
    var other := row.other;
    if other != Null {
      if !other.Str? {
        return Err("AttributeError");
      }
      var more := OtherLoop(row, Split(other.s, ' '), cats, ref2);
      if more.Err? {
        return Err(more.error);
      }
      otherRecords := more.value;
    }
    return Ok(Some([SummaryRecord(row)] + nfrrRecords + otherRecords));
  }

  /** The loop over the items of the NFRR column. */
  method NfrrLoop(row: Row, items: seq<string>, cats: seq<RegCat>, ref1: seq<RefEntry>) returns (records: seq<TraitRecord>)
    ensures records == Seqs.Each(items, NfrrStep(row, cats, ref1))
  {
    records := [];
    var i := 0;
    while i < |items|
      invariant 0 <= i <= |items|
      invariant records == Seqs.Each(items[..i], NfrrStep(row, cats, ref1))
    {
      var record := NfrrItem(row, items[i], cats, ref1);
      Seqs.EachSnoc(items, NfrrStep(row, cats, ref1), i);
      records := records + [record];
      i := i + 1;
    }
    Seqs.TakeAll(items);
  }

  /** The body of the NFRR loop: the base record, changed item by item as the code does. */
  method NfrrItem(row: Row, item: string, cats: seq<RegCat>, ref1: seq<RefEntry>) returns (record: TraitRecord)
    ensures record == NfrrStep(row, cats, ref1)(item)
  {
    var raw := [row.varname, row.value, Overall(row)];
    var norm := Reclassify(row.value);
    var sources: seq<string> := [];
    var qry := Runs(item, Digit);
    if |qry| == 1 {
      var group := Categories(cats, Int(ParseNat(qry[0])), true);
      if |group| == 1 {
        raw := raw[0 := Str("VA Group " + qry[0])][1 := group[0]];
        assert raw == [Str("VA Group " + qry[0]), group[0], Overall(row)];
      }
      norm := NfrrClass(qry[0]);
    }
    assert raw == ItemRaw(row, NfrrGroup(item, cats));
    var codes := Runs(item, Upper);
    if |codes| == 1 {
      var found := Matches(ref1, Str(codes[0]));
      if |found| == 1 {
        sources := sources + [found[0]];
        assert sources == found;
      }
    }
    assert sources == NfrrSources(item, ref1);
    record := RowRecord(row, raw, norm, sources, NfrrExtra(row.nfrr.font), 1, DefaultOfOne);
  }

  /** The loop over the items of the column of other codes. */
  method OtherLoop(row: Row, items: seq<string>, cats: seq<RegCat>, ref2: seq<RefEntry>) returns (r: Result<seq<TraitRecord>>)
    ensures r == Seqs.TryEach(items, OtherStep(row, cats, ref2))
  {
    var records: seq<TraitRecord> := [];
    var i := 0;
    while i < |items|
      invariant 0 <= i <= |items|
      invariant Seqs.TryEach(items[..i], OtherStep(row, cats, ref2)) == Ok(records)
    {
      var record := OtherItem(row, items[i], cats, ref2);
      Seqs.TryEachSnoc(items, OtherStep(row, cats, ref2), i);
      if record.Err? {
        Seqs.TryEachStop(items, OtherStep(row, cats, ref2), i + 1);
        return Err(record.error);
      }
      records := records + [record.value];
      i := i + 1;
    }
    Seqs.TakeAll(items);
    return Ok(records);
  }

  /** The body of the loop over the other codes. */
  method OtherItem(row: Row, item: string, cats: seq<RegCat>, ref2: seq<RefEntry>) returns (r: Result<TraitRecord>)
    ensures r == OtherStep(row, cats, ref2)(item)
  {
    var raw := [row.varname, row.value, Overall(row)];
    var norm := Reclassify(row.value);
    var sources: seq<string> := [];
    var qry := Runs(item, Roman);
    if |qry| == 1 {
      var group := Categories(cats, Str(qry[0]), false);
      if |group| == 0 {
        return Err("IndexError");
      }
      raw := raw[0 := Str("VA Group " + qry[0])][1 := group[0]];
      assert raw == [Str("VA Group " + qry[0]), group[0], Overall(row)];
      norm := RomanClass(qry[0]);
    }
    assert raw == ItemRaw(row, OtherGroup(item, cats));
    var nums := Runs(item, Digit);
    if |nums| == 1 {
      var found := Matches(ref2, Int(ParseNat(nums[0])));
      if |found| == 0 {
        return Err("IndexError");
      }
      sources := sources + [found[0]];
    }
    assert sources == OtherSources(item, ref2);
    return Ok(RowRecord(row, raw, norm, sources, [FromComments], 1, DefaultOfOne));
  }
}
