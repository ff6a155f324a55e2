/**
 * Numeric trait records of the NSW Flora Fire Response Database workbook
 * (lib/nswfireflora_util.py, `extract_numeric_value`): a text cell such as
 * "3-5 (12, 40)/<2?" gives one record per "/"-separated part with a best
 * value, a lower or an upper bound. Unlike `extract_value`, each part starts
 * again from the font notes of the cell.
 */
module NswNumericValues {
  import opened Wrappers
  import opened Text
  import opened PyValues
  import opened NswReferences
  import opened NswTraitValues
  import Seqs

  /** The `best`, `lower` and `upper` keys a numeric text sets; an unset key is None. */
  datatype Triplet = Triplet(best: Option<string>, lower: Option<string>, upper: Option<string>)

  /** The text itself when it `isnumeric()`, nothing otherwise. */
  function Numeric(s: string): (r: Option<string>)
    ensures r.Some? <==> IsNumeric(s)
    ensures r.Some? ==> r.value == s
  {
    if IsNumeric(s) then Some(s) else None
  }

  /**
   * The chain of tests on the stripped text `sw` of a part: a number is the
   * best value; "a-b" gives the numeric ends of a range; ">a" a lower and
   * "<a" an upper bound.
   */
  function ParseTriplet(sw: string): (tr: Triplet)
    ensures tr.best.Some? <==> IsNumeric(sw)
    ensures tr.best.Some? ==> tr == Triplet(Some(sw), None, None)
    ensures tr.lower.Some? ==> IsNumeric(tr.lower.value)
    ensures tr.upper.Some? ==> IsNumeric(tr.upper.value)
    ensures tr.lower.Some? && tr.upper.Some? ==> IndexOf(sw, '-') > 0
  {
    if IsNumeric(sw) then Triplet(Some(sw), None, None)
    else if IndexOf(sw, '-') > 0 then
      var v := Split(sw, '-');
      Triplet(None, Numeric(v[0]), Numeric(v[1]))
    else if IndexOf(sw, '>') == 0 then Triplet(None, Numeric(sw[1..]), None)
    else if IndexOf(sw, '<') == 0 then Triplet(None, None, Numeric(sw[1..]))
    else Triplet(None, None, None)
  }

  /** A text that is no number, has no "-" after its first character and starts with neither ">" nor "<" sets no key. */
  lemma TripletOfOther(sw: string)
    requires !IsNumeric(sw) && IndexOf(sw, '-') <= 0 && IndexOf(sw, '>') != 0 && IndexOf(sw, '<') != 0
    ensures ParseTriplet(sw) == Triplet(None, None, None)
  {
  }

  /**
   * "a-b" with one "-" after a non-empty `a` is a range whatever `a` and `b`
   * hold: each end is kept only when it is a number.
   */
  lemma TripletOfDash(a: string, b: string)
    requires |a| > 0 && '-' !in a && '-' !in b
    ensures ParseTriplet(a + "-" + b) == Triplet(None, Numeric(a), Numeric(b))
  {
    var sw := a + "-" + b;
    assert sw[|a|] == '-' && sw[..|a|] == a && sw[|a| + 1..] == b;
    IndexOfAt(sw, '-', |a|);
    assert !IsNumeric(sw) by { assert !IsDigit(sw[|a|]); }
    assert Split(sw, '-') == [a] + Split(b, '-');
    assert Split(b, '-') == [b];
  }

  /** A number has no "-", ">" or "<" in it. */
  lemma NumericHasNoSign(a: string)
    requires IsNumeric(a)
    ensures '-' !in a && '>' !in a && '<' !in a
  {
    assert forall i :: 0 <= i < |a| ==> IsDigit(a[i]);
  }

  /** A plain number is the best value. */
  lemma TripletOfNumber(a: string)
    requires IsNumeric(a)
    ensures ParseTriplet(a) == Triplet(Some(a), None, None)
  {
  }

  /** "a-b" with numbers on both sides is the range from `a` to `b`. */
  lemma TripletOfRange(a: string, b: string)
    requires IsNumeric(a) && IsNumeric(b)
    ensures ParseTriplet(a + "-" + b) == Triplet(None, Some(a), Some(b))
  {
    var sw := a + "-" + b;
    NumericHasNoSign(a);
    NumericHasNoSign(b);
    assert sw[|a|] == '-' && sw[..|a|] == a && sw[|a| + 1..] == b;
    IndexOfAt(sw, '-', |a|);
    assert !IsNumeric(sw) by { assert !IsDigit(sw[|a|]); }
    assert Split(sw, '-') == [a] + Split(b, '-');
    assert Split(b, '-') == [b];
  }

  /** ">a" with a number after it is a lower bound. */
  lemma TripletOfAtLeast(a: string)
    requires IsNumeric(a)
    ensures ParseTriplet(">" + a) == Triplet(None, Some(a), None)
  {
    var sw := ">" + a;
    NumericHasNoSign(a);
    assert sw[1..] == a;
    assert '-' !in sw;
    assert !IsDigit(sw[0]);
  }

  /** "<a" with a number after it is an upper bound. */
  lemma TripletOfAtMost(a: string)
    requires IsNumeric(a)
    ensures ParseTriplet("<" + a) == Triplet(None, None, Some(a))
  {
    var sw := "<" + a;
    NumericHasNoSign(a);
    assert sw[1..] == a;
    assert '-' !in sw && '>' !in sw;
    assert !IsDigit(sw[0]);
  }

  /** What `extract_numeric_value` reads from one "/"-separated part. */
  datatype NumPart = NumPart(w0: string, w: string, refs: bool, sw: string)

  /**
   * `w0` is the stripped part, `w` the same without "?" when the part is
   * uncertain; the text `sw` parsed for numbers stops at a "(" after the
   * first character.
   */
  function ReadNumericPart(raw: string): (p: NumPart)
    ensures p.w0 == Strip(raw, Blank)
    ensures p.refs <==> IndexOf(p.w, '(') > 0
    ensures |p.sw| <= |p.w| <= |p.w0|
  {
    var w0 := Strip(raw, Blank);
    var w := if Doubtful(raw) then Without(w0, '?') else w0;
    var refs := IndexOf(w, '(') > 0;
    var end := if refs then IndexOf(w, '(') else |w|;
    NumPart(w0, w, refs, Strip(w[..end], Blank))
  }

  /** The record of one part, with only the cell's font notes and this part's own "uncertain". */
  function NumericPart(varname: Value, raw: string, note: seq<string>, t: RefTables): TraitRecord {
    var p := ReadNumericPart(raw);
    var tr := ParseTriplet(p.sw);
    RawRecord([varname, Str(p.w0)]).(
      mainSource := Some(MainSource),
      best := if tr.best.Some? then Some(Str(tr.best.value)) else None,
      lower := tr.lower,
      upper := tr.upper,
      originalSources := if p.refs then Some(ResolvedGroups(ParenGroups(p.w), t)) else None,
      originalNotes := NotesField(NoteStep(note, raw)))
  }

  /** The loop over the parts of a text cell. */
  function NumericRecords(varname: Value, parts: seq<string>, note: seq<string>, t: RefTables): seq<TraitRecord> {
    if parts == [] then []
    else NumericRecords(varname, parts[..|parts| - 1], note, t) + [NumericPart(varname, parts[|parts| - 1], note, t)]
  }

  /** The record of a numeric cell: its text, the number itself as best value, and the font notes. */
  function NumberCellRecord(varname: Value, v: Value, note: seq<string>): TraitRecord {
    RawRecord([varname, Str(Show(v))]).(best := Some(v), mainSource := Some(MainSource), originalNotes := NotesField(note))
  }

  /** What `extract_numeric_value` returns for a non-empty cell, or the exception it raises. */
  function NumericValueRecords(target: Cell, varname: Value, t: RefTables): Result<seq<TraitRecord>> {
    var note := FontNotes(target.font);
    match target.value
    case Int(_) => Ok([NumberCellRecord(varname, target.value, note)])
    case Float(_) => Ok([NumberCellRecord(varname, target.value, note)])
    case Str(s) => Ok(NumericRecords(varname, Split(s, '/'), note, t))
    case _ => Err("AttributeError")
  }

  /**
   * Part `j` of a cell gives record `j`, and that record depends on part `j`
   * and the font notes alone: nothing one part notes reaches another.
   */
  lemma {:induction false} NumericRecordsAt(varname: Value, parts: seq<string>, note: seq<string>, t: RefTables)
    ensures |NumericRecords(varname, parts, note, t)| == |parts|
    ensures forall j :: 0 <= j < |parts| ==> NumericRecords(varname, parts, note, t)[j] == NumericPart(varname, parts[j], note, t)
  {
    if parts != [] {
      var init := parts[..|parts| - 1];
      NumericRecordsAt(varname, init, note, t);
      forall j | 0 <= j < |parts| - 1
        ensures NumericRecords(varname, parts, note, t)[j] == NumericPart(varname, parts[j], note, t)
      {
        assert init[j] == parts[j];
      }
    }
  }

  /**
   * A part's record names the variable and the stripped part, has the
   * workbook as main source, notes "uncertain" exactly when the part has a
   * "?" after its first character, and has sources exactly when it has a "("
   * after its first character once the "?" are gone (possibly none at all).
   */
  lemma NumericPartShape(varname: Value, raw: string, note: seq<string>, t: RefTables)
    ensures var r := NumericPart(varname, raw, note, t);
      && r.rawValue == [varname, Str(Strip(raw, Blank))]
      && r.mainSource == Some(MainSource)
      && NotesOf(r) == Texts(if Doubtful(raw) then note + [Uncertain] else note)
      && (r.originalSources.Some? <==> ReadNumericPart(raw).refs)
      && r.weight.None? && r.species.None?
  {
  }

  /** `extract_numeric_value`. */
  method ExtractNumericValue(target: Cell, varname: Value, t: RefTables) returns (r: Result<seq<TraitRecord>>)
    requires target.value != Null
    ensures r == NumericValueRecords(target, varname, t)
  {
    var note := FontNotes(target.font);
    var val := target.value;
    if val.Int? || val.Float? {
      return Ok([NumberCellRecord(varname, val, note)]);
    }
    if !val.Str? {
      return Err("AttributeError");
    }
    var rslts := NumericText(varname, Split(val.s, '/'), note, t);
    return Ok(rslts);
  }

  /** The loop of `extract_numeric_value` over the "/"-separated parts of a text cell. */
  method NumericText(varname: Value, parts: seq<string>, note: seq<string>, t: RefTables) returns (rslts: seq<TraitRecord>)
    ensures rslts == NumericRecords(varname, parts, note, t)
  {
    rslts := [];
    var i := 0;
    while i < |parts|
      invariant 0 <= i <= |parts|
      invariant rslts == NumericRecords(varname, parts[..i], note, t)
    {
      var record := ReadNumericRecord(varname, parts[i], note, t);
      Seqs.TakeTake(parts, i, i + 1);
      assert parts[..i + 1][i] == parts[i];
      rslts := rslts + [record];
      i := i + 1;
    }
    Seqs.TakeAll(parts);
  }

  /** The body of the loop of `extract_numeric_value`: one "/"-separated part. */
  method ReadNumericRecord(varname: Value, raw: string, note: seq<string>, t: RefTables) returns (record: TraitRecord)
    ensures record == NumericPart(varname, raw, note, t)
  {
    var p := ReadNumericPart(raw);
    var tr := ParseTriplet(p.sw);
    var sources: Option<seq<string>> := None;
    if p.refs {
      var oref := ResolveGroups(p.w, t);
      sources := Some(oref);
    }
    record := RawRecord([varname, Str(p.w0)]).(
      mainSource := Some(MainSource),
      best := if tr.best.Some? then Some(Str(tr.best.value)) else None,
      lower := tr.lower,
      upper := tr.upper,
      originalSources := sources,
      originalNotes := NotesField(NoteStep(note, raw)));
  }
}
