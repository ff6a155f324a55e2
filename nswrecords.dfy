/**
 * The records of one species row and one trait column of the NSW Flora Fire
 * Response Database workbook (lib/nswfireflora_util.py, `create_record` and
 * `create_numeric_record`): the cell's records, given the species of the row
 * and, when they have no sources of their own, the sources of the cell's
 * hyperlink to the References sheet.
 */
module NswRecords {
  import opened Wrappers
  import opened PyValues
  import opened NswReferences
  import opened NswTraitValues
  import opened NswNumericValues

  /** The two `weight_notes` every numeric record gets. */
  const DefaultWeightNotes: seq<Note> := [AutomaticWeight, DefaultValueOne]

  /** The columns of a row that name the species: `sp_col` and `spcode_col`. */
  datatype SpeciesColumns = SpeciesColumns(name: string, code: string)

  const DefaultSpeciesColumns := SpeciesColumns("A", "B")

  /** What the cell's hyperlink gives: `extract_link` when there is one, None otherwise. */
  function CellLink(target: Cell, references: map<string, Value>, t: RefTables): Result<Option<LinkRefs>> {
    if target.hyperlink.Some? then Link(target, references, t) else Ok(None)
  }

  /** The sources a record ends up with: its own when it has the key, the link's otherwise. */
  function SourcesWith(own: Option<seq<string>>, ref: Option<LinkRefs>): Option<seq<string>> {
    if own.None? && ref.Some? then Some(ref.value.refinfo) else own
  }

  /** The loop body of `create_record`: the species of the row, and the link's sources when the record has none. */
  function Stamp(r: TraitRecord, spname: Value, spcode: Value, ref: Option<LinkRefs>): TraitRecord {
    r.(species := Some(spname), speciesCode := Some(spcode), originalSources := SourcesWith(r.originalSources, ref))
  }

  /** The loop body of `create_numeric_record`: as `Stamp`, with the main source and the default weight. */
  function Weigh(r: TraitRecord, spname: Value, spcode: Value, ref: Option<LinkRefs>): TraitRecord {
    Stamp(r, spname, spcode, ref).(mainSource := Some(MainSource), weight := Some(1), weightNotes := Some(DefaultWeightNotes))
  }

  /** Every record stamped, in order; with `numeric`, weighed as well. */
  function StampAll(recs: seq<TraitRecord>, spname: Value, spcode: Value, ref: Option<LinkRefs>, numeric: bool): seq<TraitRecord> {
    if recs == [] then []
    else
      var last := recs[|recs| - 1];
      StampAll(recs[..|recs| - 1], spname, spcode, ref, numeric)
      + [if numeric then Weigh(last, spname, spcode, ref) else Stamp(last, spname, spcode, ref)]
  }

  /** `create_record`: None for an empty cell, otherwise the stamped records or the exception raised. */
  function RowRecords(sheet: Sheet, col: string, row: nat, switcher: map<string, Value>, references: map<string, Value>,
                      t: RefTables, seps: seq<string>, cols: SpeciesColumns): Result<Option<seq<TraitRecord>>>
    requires forall i :: 0 <= i < |seps| ==> |seps[i]| > 0
  {
    var target := CellAt(sheet, col, row);
    var varname := CellAt(sheet, col, 1).value;
    if target.value == Null then Ok(None)
    else
      var ref := CellLink(target, references, t);
      if ref.Err? then Err(ref.error)
      else if !varname.Str? then Err("AssertionError")
      else
        var rec := ValueRecords(target, switcher, varname.s, t, seps);
        if rec.Err? then Err(rec.error)
        else Ok(Some(StampAll(rec.value, CellAt(sheet, cols.name, row).value, CellAt(sheet, cols.code, row).value, ref.value, false)))
  }

  /** `create_numeric_record`: no records for an empty cell, otherwise the weighed records or the exception raised. */
  function NumericRowRecords(sheet: Sheet, col: string, row: nat, references: map<string, Value>, t: RefTables,
                             cols: SpeciesColumns): Result<seq<TraitRecord>>
  {
    var target := CellAt(sheet, col, row);
    var ref := CellLink(target, references, t);
    if ref.Err? then Err(ref.error)
    else if target.value == Null then Ok([])
    else
      var rec := NumericValueRecords(target, CellAt(sheet, col, 1).value, t);
      if rec.Err? then Err(rec.error)
      else Ok(StampAll(rec.value, CellAt(sheet, cols.name, row).value, CellAt(sheet, cols.code, row).value, ref.value, true))
  }

  /** Record `j` of the output is record `j` of the cell, stamped. */
  lemma {:induction false} StampAllAt(recs: seq<TraitRecord>, spname: Value, spcode: Value, ref: Option<LinkRefs>, numeric: bool)
    ensures |StampAll(recs, spname, spcode, ref, numeric)| == |recs|
    ensures forall j :: 0 <= j < |recs| ==>
      StampAll(recs, spname, spcode, ref, numeric)[j]
      == (if numeric then Weigh(recs[j], spname, spcode, ref) else Stamp(recs[j], spname, spcode, ref))
  {
    if recs != [] {
      var init := recs[..|recs| - 1];
      StampAllAt(init, spname, spcode, ref, numeric);
      forall j | 0 <= j < |recs| - 1
        ensures StampAll(recs, spname, spcode, ref, numeric)[j]
          == (if numeric then Weigh(recs[j], spname, spcode, ref) else Stamp(recs[j], spname, spcode, ref))
      {
        assert init[j] == recs[j];
      }
    }
  }

  /**
   * Stamping keeps what the cell gave (its text, values and notes), gives
   * every record the species of the row, and takes the link's sources only
   * for a record without the key: a record's own sources, even an empty
   * list of them, win.
   */
  lemma StampKeeps(r: TraitRecord, spname: Value, spcode: Value, ref: Option<LinkRefs>)
    ensures var s := Stamp(r, spname, spcode, ref);
      && s.rawValue == r.rawValue && s.normValue == r.normValue && s.originalNotes == r.originalNotes
      && s.best == r.best && s.lower == r.lower && s.upper == r.upper && s.mainSource == r.mainSource
      && s.species == Some(spname) && s.speciesCode == Some(spcode)
      && (r.originalSources.Some? ==> s.originalSources == r.originalSources)
      && (r.originalSources.None? && ref.Some? ==> s.originalSources == Some(ref.value.refinfo))
      && (s.originalSources.None? <==> r.originalSources.None? && ref.None?)
  {
  }

  /** Every numeric record has the main source, weight 1 and the two default weight notes, whatever the cell gave. */
  lemma WeighSets(r: TraitRecord, spname: Value, spcode: Value, ref: Option<LinkRefs>)
    ensures var s := Weigh(r, spname, spcode, ref);
      && s.mainSource == Some(MainSource) && s.weight == Some(1) && s.weightNotes == Some(DefaultWeightNotes)
      && s.species == Some(spname) && s.speciesCode == Some(spcode)
      && s.rawValue == r.rawValue && s.best == r.best && s.lower == r.lower && s.upper == r.upper
      && s.originalSources == SourcesWith(r.originalSources, ref)
  {
  }

  /**
   * An empty cell makes `create_record` return None without reading its
   * hyperlink, while `create_numeric_record` reads the hyperlink first: a
   * broken link raises even when the cell is empty.
   */
  lemma EmptyCells(sheet: Sheet, col: string, row: nat, switcher: map<string, Value>, references: map<string, Value>,
                   t: RefTables, seps: seq<string>, cols: SpeciesColumns)
    requires forall i :: 0 <= i < |seps| ==> |seps[i]| > 0
    requires CellAt(sheet, col, row).value == Null
    ensures RowRecords(sheet, col, row, switcher, references, t, seps, cols) == Ok(None)
    ensures NumericRowRecords(sheet, col, row, references, t, cols).Err?
            <==> CellLink(CellAt(sheet, col, row), references, t).Err?
    ensures NumericRowRecords(sheet, col, row, references, t, cols).Ok? ==>
            NumericRowRecords(sheet, col, row, references, t, cols) == Ok([])
  {
  }

  /** `create_record`. */
  method CreateRecord(sheet: Sheet, col: string, row: nat, switcher: map<string, Value>, references: map<string, Value>,
                      t: RefTables, seps: seq<string>, cols: SpeciesColumns) returns (r: Result<Option<seq<TraitRecord>>>)
    requires forall i :: 0 <= i < |seps| ==> |seps[i]| > 0
    ensures r == RowRecords(sheet, col, row, switcher, references, t, seps, cols)
  {
    var target := CellAt(sheet, col, row);
    var varname := CellAt(sheet, col, 1).value;
    if target.value == Null {
      return Ok(None);
    }
    var ref: Result<Option<LinkRefs>> := Ok(None);
    if target.hyperlink.Some? {
      ref := ExtractLink(target, references, t);
    }
    if ref.Err? {
      return Err(ref.error);
    }
    if !varname.Str? {
      return Err("AssertionError");
    }
    var spname := CellAt(sheet, cols.name, row).value;
    var spcode := CellAt(sheet, cols.code, row).value;
    var rec := ExtractValue(target, switcher, varname.s, t, seps);
    if rec.Err? {
      return Err(rec.error);
    }
    var records := StampRecords(rec.value, spname, spcode, ref.value, false);
    return Ok(Some(records));
  }

  /** `create_numeric_record`. */
  method CreateNumericRecord(sheet: Sheet, col: string, row: nat, references: map<string, Value>, t: RefTables,
                             cols: SpeciesColumns) returns (r: Result<seq<TraitRecord>>)
    ensures r == NumericRowRecords(sheet, col, row, references, t, cols)
  {
    var target := CellAt(sheet, col, row);
    var ref: Result<Option<LinkRefs>> := Ok(None);
    if target.hyperlink.Some? {
      ref := ExtractLink(target, references, t);
    }
    if ref.Err? {
      return Err(ref.error);
    }
    if target.value == Null {
      return Ok([]);
    }
    var spname := CellAt(sheet, cols.name, row).value;
    var spcode := CellAt(sheet, cols.code, row).value;
    var varname := CellAt(sheet, col, 1).value;
    var rec := ExtractNumericValue(target, varname, t);
    if rec.Err? {
      return Err(rec.error);
    }
    var records := StampRecords(rec.value, spname, spcode, ref.value, true);
    return Ok(records);
  }

  /** The `for record in rec` loop of both functions. */
  method StampRecords(recs: seq<TraitRecord>, spname: Value, spcode: Value, ref: Option<LinkRefs>, numeric: bool)
    returns (records: seq<TraitRecord>)
    ensures records == StampAll(recs, spname, spcode, ref, numeric)
  {
    records := [];
    var i := 0;
    while i < |recs|
      invariant 0 <= i <= |recs|
      invariant records == StampAll(recs[..i], spname, spcode, ref, numeric)
    {
      var record := recs[i];
      record := record.(species := Some(spname), speciesCode := Some(spcode));
      if numeric {
        record := record.(mainSource := Some(MainSource), weight := Some(1), weightNotes := Some(DefaultWeightNotes));
      }
      if record.originalSources.None? && ref.Some? {
        record := record.(originalSources := Some(ref.value.refinfo));
      }
      assert recs[..i + 1][..i] == recs[..i] && recs[..i + 1][i] == recs[i];
      records := records + [record];
      i := i + 1;
    }
    assert recs[..|recs|] == recs;
  }
}
