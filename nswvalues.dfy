/**
 * Trait records read from one cell of the NSW Flora Fire Response Database
 * workbook (lib/nswfireflora_util.py): a text cell is split into one record
 * per "/"-separated part and, inside a part, per "&", ";", ",", " or " and
 * " and " piece; a numeric cell gives one record. `create_record` and
 * `create_numeric_record` add the species and the sources of the cell's
 * hyperlink.
 */
module NswTraitValues {
  import opened Wrappers
  import opened Text
  import opened PyValues
  import opened NswReferences
  import Seqs

  /**
   * A trait record: the Python dict the importer builds, one field per key it
   * may set. A key the code did not set is None; `raw_value` is always set.
   */
  datatype TraitRecord = TraitRecord(
    rawValue: seq<Value>,
    mainSource: Option<string>,
    normValue: Option<Value>,
    best: Option<Value>,
    lower: Option<string>,
    upper: Option<string>,
    originalSources: Option<seq<string>>,
    originalNotes: Option<seq<Value>>,
    additionalNotes: Option<seq<Note>>,
    weight: Option<int>,
    weightNotes: Option<seq<Note>>,
    species: Option<Value>,
    speciesCode: Option<Value>)

  /**
   * The fixed texts the importers write to `additional_notes` and
   * `weight_notes`, one constructor per text; `NoteText` gives the text.
   */
  datatype Note =
    | Reclassified | ScriptExtraction | SeeComments | FromComments | Amended | Discarded
    | ScriptImport | DefaultOfOne | DefaultOfTen | AutomaticWeight | DefaultValueOne

  /** The text of a note, as the importers write it (including the misspelt "ammended"). */
  function NoteText(n: Note): string {
    match n
    case Reclassified => "Values reclassified following rules proposed by D. Keith et al."
    case ScriptExtraction => "Automatic extraction with python script"
    case SeeComments => "See comments in NSWFFRDv2.1 entry"
    case FromComments => "Raw values extracted from notes/comments in NSWFFRDBv2.1"
    case Amended => "NFRR record(s) might have been ammended in NSWFFRDv2.1"
    case Discarded => "NFRR record(s) might have been discarded in NSWFFRDv2.1"
    case ScriptImport => "python-script import"
    case DefaultOfOne => "default of 1"
    case DefaultOfTen => "default of 10 for summary value"
    case AutomaticWeight => "automatic assignment of weight by python script"
    case DefaultValueOne => "default value of 1"
  }

  /** `{"raw_value": raw}`. */
  function RawRecord(raw: seq<Value>): TraitRecord {
    TraitRecord(raw, None, None, None, None, None, None, None, None, None, None, None, None)
  }

  /** The `main_source` of every record read from this workbook. */
  const MainSource := "NSWFFRDv2.1"

  /** The default `splitstring`, `"&|;|,| or | and "`, as its alternatives. */
  const DefaultSeparators: seq<string> := ["&", ";", ",", " or ", " and "]

  const SplitIntoParts := "original record split into multiple entries, prob. different sources"
  const SplitIntoPieces := "original record split into multiple entries separated by and/or"
  const Inferred := "Inferred from plant morphology"
  const Uncertain := "uncertain"

  /** A list of strings as list elements. */
  function Texts(ss: seq<string>): (vs: seq<Value>)
    ensures |vs| == |ss|
    ensures forall i :: 0 <= i < |ss| ==> vs[i] == Str(ss[i])
  {
    Strs(ss).items
  }

  /** `original_notes` when the list is not empty, unset otherwise. */
  function NotesField(notes: seq<string>): Option<seq<Value>> {
    if |notes| > 0 then Some(Texts(notes)) else None
  }

  /** The `original_notes` of a record, or nothing when it has none. */
  function NotesOf(r: TraitRecord): seq<Value> {
    if r.originalNotes.Some? then r.originalNotes.value else []
  }

  /** The notes a cell's font gives: its colour index, and a strikethrough flag whenever `strike` is set. */
  function FontNotes(font: Font): seq<string> {
    (match font.color
     case None => []
     case Some(c) => ["Cell color index " + (match c.indexed case None => "None" case Some(i) => IntToString(i))])
    + (if font.strike.Some? then ["Cell text has strikethrough"] else [])
  }

  // ---------------------------------------------------------------------
  // extract_value

  /** What `extract_value` reads from one "/"-separated part before splitting it into pieces. */
  datatype Part = Part(w: string, refs: bool, inferred: bool, uncertain: bool, sw: string, split: bool)

  /** A part is uncertain when its stripped text has a "?" after its first character. */
  predicate Doubtful(raw: string) {
    IndexOf(Strip(raw, Blank), '?') > 0
  }

  function ReadPart(raw: string): (p: Part)
    ensures p.w == Strip(raw, Blank)
    ensures p.refs <==> IndexOf(p.w, '(') > 0
    ensures p.inferred <==> Find(p.w, "a-") == 0
    ensures p.uncertain <==> Doubtful(raw)
    ensures '?' !in p.sw && |p.sw| <= |p.w|
    ensures p.split <==> p.sw != p.w
  {
    var w := Strip(raw, Blank);
    var end := if IndexOf(w, '(') > 0 then IndexOf(w, '(') else |w|;
    var start := if Find(w, "a-") == 0 then 2 else 0;
    var sw := Without(Strip(Slice(w, start, end), Blank), '?');
    Part(w, IndexOf(w, '(') > 0, Find(w, "a-") == 0, IndexOf(w, '?') > 0, sw, sw != w)
  }

  /** One piece of a part, stripped, and whether it is less than the whole part. */
  datatype Piece = Piece(sv: string, reduced: bool)

  function ReadPiece(p: Part, piece: string): (q: Piece)
    ensures q.sv == Strip(piece, Blank)
    ensures q.reduced <==> q.sv != p.sw
  {
    var sv := Strip(piece, Blank);
    Piece(sv, sv != p.sw)
  }

  /** The citations of the parenthesised codes of a part, when it has a "(" after its first character. */
  function PartSources(p: Part, t: RefTables): seq<string> {
    if p.refs then ResolvedGroups(ParenGroups(p.w), t) else []
  }

  /** The switcher's value for a piece; a value of None is not recorded. */
  function Lookup(switcher: map<string, Value>, sv: string): Option<Value> {
    if sv in switcher && switcher[sv] != Null then Some(switcher[sv]) else None
  }

  /**
   * The record of one piece of a part: the raw text and the reductions that
   * led to the piece, and the shared notes followed by the piece's own
   * breadcrumbs.
   */
  function PieceRecord(varname: string, p: Part, q: Piece, note: seq<string>, oref: seq<string>,
                       switcher: map<string, Value>): TraitRecord
  {
    TraitRecord(
      rawValue := Texts([varname, p.w] + Trail(p, q)),
      mainSource := Some(MainSource),
      normValue := Lookup(switcher, q.sv),
      best := None, lower := None, upper := None,
      originalSources := if |oref| > 0 then Some(oref) else None,
      originalNotes := NotesField(note + Crumbs(p, q)),
      additionalNotes := None, weight := None, weightNotes := None, species := None, speciesCode := None)
  }

  /** The raw-value breadcrumbs of a piece: "->" and the reduced part when the part was reduced, "->" and the piece when it was split further. */
  function Trail(p: Part, q: Piece): seq<string> {
    (if p.split then ["->", p.sw] else []) + (if q.reduced then ["->", q.sv] else [])
  }

  /** The notes a piece adds to the shared ones: part reduced, piece split further, morphology inferred, in that order. */
  function Crumbs(p: Part, q: Piece): seq<string> {
    (if p.split then [SplitIntoParts] else []) + (if q.reduced then [SplitIntoPieces] else []) + (if p.inferred then [Inferred] else [])
  }

  /** The records of the pieces of one part, in order. */
  function PieceRecords(varname: string, p: Part, pieces: seq<string>, note: seq<string>, oref: seq<string>,
                        switcher: map<string, Value>): seq<TraitRecord>
  {
    if pieces == [] then []
    else PieceRecords(varname, p, pieces[..|pieces| - 1], note, oref, switcher)
         + [PieceRecord(varname, p, ReadPiece(p, pieces[|pieces| - 1]), note, oref, switcher)]
  }

  /** There is one record per piece of a part. */
  lemma {:induction false} PieceRecordsLength(varname: string, p: Part, pieces: seq<string>, note: seq<string>,
                                              oref: seq<string>, switcher: map<string, Value>)
    ensures |PieceRecords(varname, p, pieces, note, oref, switcher)| == |pieces|
  {
    if pieces != [] {
      PieceRecordsLength(varname, p, pieces[..|pieces| - 1], note, oref, switcher);
    }
  }

  /** Every record of a part is the record of one of its pieces. */
  lemma {:induction false} PieceRecordsFrom(varname: string, p: Part, pieces: seq<string>, note: seq<string>,
                                            oref: seq<string>, switcher: map<string, Value>)
    ensures forall r :: r in PieceRecords(varname, p, pieces, note, oref, switcher) ==>
      exists piece :: piece in pieces && r == PieceRecord(varname, p, ReadPiece(p, piece), note, oref, switcher)
  {
    if pieces != [] {
      var init := pieces[..|pieces| - 1];
      PieceRecordsFrom(varname, p, init, note, oref, switcher);
      assert forall piece :: piece in init ==> piece in pieces;
    }
  }

  /** The record of every piece of a part is among the part's records. */
  lemma {:induction false} PieceRecordsHave(varname: string, p: Part, pieces: seq<string>, note: seq<string>,
                                            oref: seq<string>, switcher: map<string, Value>, piece: string)
    requires piece in pieces
    ensures PieceRecord(varname, p, ReadPiece(p, piece), note, oref, switcher) in PieceRecords(varname, p, pieces, note, oref, switcher)
  {
    var init := pieces[..|pieces| - 1];
    if piece != pieces[|pieces| - 1] {
      assert piece in init;
      PieceRecordsHave(varname, p, init, note, oref, switcher, piece);
    }
  }

  /** The records one part gives, with the notes shared at that point. */
  function PartRecords(varname: string, p: Part, note: seq<string>, t: RefTables,
                       switcher: map<string, Value>, seps: seq<string>): seq<TraitRecord>
  {
    PieceRecords(varname, p, AltSplit(p.sw, seps), note, PartSources(p, t), switcher)
  }

  /** The shared note list after one more part: an uncertain part adds "uncertain" to it for good. */
  function NoteStep(note: seq<string>, raw: string): seq<string> {
    if Doubtful(raw) then note + [Uncertain] else note
  }

  /** The shared note list after the loop has read `parts`. */
  function NotesAfter(parts: seq<string>, note0: seq<string>): seq<string> {
    if parts == [] then note0
    else NoteStep(NotesAfter(parts[..|parts| - 1], note0), parts[|parts| - 1])
  }

  /** The records of part `j` of a text cell, read with the notes shared after the first `j + 1` parts. */
  function PartBlock(varname: string, parts: seq<string>, note0: seq<string>, t: RefTables,
                     switcher: map<string, Value>, seps: seq<string>, j: nat): seq<TraitRecord>
  {
    if j < |parts| then PartRecords(varname, ReadPart(parts[j]), NotesAfter(parts[..j + 1], note0), t, switcher, seps) else []
  }

  /** The records of the parts of a text cell, part by part. */
  function Blocks(varname: string, parts: seq<string>, note0: seq<string>, t: RefTables,
                  switcher: map<string, Value>, seps: seq<string>): nat -> seq<TraitRecord>
  {
    (j: nat) => PartBlock(varname, parts, note0, t, switcher, seps, j)
  }

  /** The records of the loop over the parts of a text cell: each part read with the notes shared at that point. */
  function ScanRecords(varname: string, parts: seq<string>, note0: seq<string>, t: RefTables,
                       switcher: map<string, Value>, seps: seq<string>): seq<TraitRecord>
  {
    Seqs.Concat(Blocks(varname, parts, note0, t, switcher, seps), |parts|)
  }

  /** The record of a cell holding a number: its text, and the font notes when there are any. */
  function NumberRecord(varname: Value, v: Value, note: seq<string>): TraitRecord {
    RawRecord([varname, Str(Show(v))]).(originalNotes := NotesField(note))
  }

  /** What `extract_value` returns for a non-empty cell, or the exception it raises. */
  function ValueRecords(target: Cell, switcher: map<string, Value>, varname: string, t: RefTables,
                        seps: seq<string>): Result<seq<TraitRecord>>
  {
    var note := FontNotes(target.font);
    match target.value
    case Int(_) => Ok([NumberRecord(Str(varname), target.value, note)])
    case Float(_) => Ok([NumberRecord(Str(varname), target.value, note)])
    case Str(s) => Ok(ScanRecords(varname, Split(s, '/'), note, t, switcher, seps))
    case _ => Err("AttributeError")
  }

  /**
   * Each piece's record: the raw value is the variable and the part, then
   * "->" and the reduced part when the part had to be reduced, then "->"
   * and the piece when the part was split further; the workbook is the
   * main source; the switcher's value for the piece is the normalised value
   * exactly when there is one; the notes are the shared ones followed by
   * one note for each of those reductions and one when the value was
   * inferred from morphology, and they are set exactly when that list is
   * not empty.
   */
  lemma PieceRecordShape(varname: string, p: Part, q: Piece, note: seq<string>, oref: seq<string>,
                         switcher: map<string, Value>)
    ensures var r := PieceRecord(varname, p, q, note, oref, switcher);
      && r.rawValue == Texts([varname, p.w] + Trail(p, q))
      && |r.rawValue| == 2 + (if p.split then 2 else 0) + (if q.reduced then 2 else 0)
      && r.rawValue[0] == Str(varname) && r.rawValue[1] == Str(p.w)
      && (p.split ==> r.rawValue[2..4] == [Str("->"), Str(p.sw)])
      && (q.reduced ==> r.rawValue[|r.rawValue| - 2..] == [Str("->"), Str(q.sv)])
      && r.mainSource == Some(MainSource)
      && r.normValue == Lookup(switcher, q.sv)
      && (r.normValue.Some? <==> q.sv in switcher && switcher[q.sv] != Null)
      && r.originalSources == (if |oref| > 0 then Some(oref) else None)
      && NotesOf(r) == Texts(note + Crumbs(p, q))
      && |NotesOf(r)| == |note| + |Crumbs(p, q)|
      && (forall k :: 0 <= k < |note| ==> NotesOf(r)[k] == Str(note[k]))
      && NotesOf(r)[|note|..] == Texts(Crumbs(p, q))
      && (r.originalNotes.Some? <==> |note| > 0 || p.split || q.reduced || p.inferred)
  {
    PieceRaw(varname, p, q, note, oref, switcher);
    PieceNotes(varname, p, q, note, oref, switcher);
  }

  /** The raw value of a piece's record: the variable, the part, and the breadcrumbs. */
  lemma PieceRaw(varname: string, p: Part, q: Piece, note: seq<string>, oref: seq<string>, switcher: map<string, Value>)
    ensures var r := PieceRecord(varname, p, q, note, oref, switcher);
      && r.rawValue == Texts([varname, p.w] + Trail(p, q))
      && |r.rawValue| == 2 + (if p.split then 2 else 0) + (if q.reduced then 2 else 0)
      && r.rawValue[0] == Str(varname) && r.rawValue[1] == Str(p.w)
      && (p.split ==> r.rawValue[2..4] == [Str("->"), Str(p.sw)])
      && (q.reduced ==> r.rawValue[|r.rawValue| - 2..] == [Str("->"), Str(q.sv)])
  {
    var all := [varname, p.w] + Trail(p, q);
    var vs := Texts(all);
    assert PieceRecord(varname, p, q, note, oref, switcher).rawValue == vs;
    assert all[0] == varname && all[1] == p.w;
    if p.split {
      assert all[2] == "->" && all[3] == p.sw;
      assert vs[2..4] == [vs[2], vs[3]];
    }
    if q.reduced {
      assert all[|all| - 2] == "->" && all[|all| - 1] == q.sv;
      assert vs[|vs| - 2..] == [vs[|vs| - 2], vs[|vs| - 1]];
    }
  }

  /** The notes of a piece's record: the shared ones and then the piece's own. */
  lemma PieceNotes(varname: string, p: Part, q: Piece, note: seq<string>, oref: seq<string>, switcher: map<string, Value>)
    ensures var r := PieceRecord(varname, p, q, note, oref, switcher);
      && NotesOf(r) == Texts(note + Crumbs(p, q))
      && |NotesOf(r)| == |note| + |Crumbs(p, q)|
      && (forall k :: 0 <= k < |note| ==> NotesOf(r)[k] == Str(note[k]))
      && NotesOf(r)[|note|..] == Texts(Crumbs(p, q))
      && (r.originalNotes.Some? <==> |note| > 0 || p.split || q.reduced || p.inferred)
  {
    var crumbs := Crumbs(p, q);
    var whole := note + crumbs;
    assert |crumbs| > 0 <==> p.split || q.reduced || p.inferred;
    var all := Texts(whole);
    assert NotesOf(PieceRecord(varname, p, q, note, oref, switcher)) == all;
    forall k | 0 <= k < |note|
      ensures all[k] == Str(note[k])
    {
      assert whole[k] == note[k];
    }
    forall k | 0 <= k < |crumbs|
      ensures all[|note|..][k] == Texts(crumbs)[k]
    {
      assert whole[|note| + k] == crumbs[k];
    }
  }

  /** Reading one more part is one more round of the loop. */
  lemma NotesSnoc(parts: seq<string>, note0: seq<string>, j: nat)
    requires j < |parts|
    ensures NotesAfter(parts[..j + 1], note0) == NoteStep(NotesAfter(parts[..j], note0), parts[j])
  {
    Seqs.TakeTake(parts, j, j + 1);
    assert parts[..j + 1][j] == parts[j];
  }

  /** One more round of the loop over the parts. */
  lemma ScanStep(varname: string, parts: seq<string>, note0: seq<string>, t: RefTables,
                 switcher: map<string, Value>, seps: seq<string>, j: nat)
    requires j < |parts|
    ensures Seqs.Concat(Blocks(varname, parts, note0, t, switcher, seps), j + 1)
            == Seqs.Concat(Blocks(varname, parts, note0, t, switcher, seps), j)
               + PartRecords(varname, ReadPart(parts[j]), NotesAfter(parts[..j + 1], note0), t, switcher, seps)
  {
    assert Blocks(varname, parts, note0, t, switcher, seps)(j) == PartBlock(varname, parts, note0, t, switcher, seps, j);
  }

  /** The shared note list only grows. */
  lemma {:induction false} NotesGrow(parts: seq<string>, note0: seq<string>, n: nat)
    requires n <= |parts|
    ensures NotesAfter(parts[..n], note0) <= NotesAfter(parts, note0)
  {
    if n < |parts| {
      var init := parts[..|parts| - 1];
      Seqs.TakeTake(parts, n, |parts| - 1);
      NotesGrow(init, note0, n);
    } else {
      Seqs.TakeAll(parts);
    }
  }

  /** Every record of a part starts its notes with the notes shared at that point. */
  lemma PartRecordsKeepNotes(varname: string, p: Part, note: seq<string>, t: RefTables,
                             switcher: map<string, Value>, seps: seq<string>)
    ensures forall r :: r in PartRecords(varname, p, note, t, switcher, seps) ==>
      |note| <= |NotesOf(r)| && forall k :: 0 <= k < |note| ==> NotesOf(r)[k] == Str(note[k])
  {
    var oref := PartSources(p, t);
    PieceRecordsFrom(varname, p, AltSplit(p.sw, seps), note, oref, switcher);
    forall r | r in PartRecords(varname, p, note, t, switcher, seps)
      ensures |note| <= |NotesOf(r)| && forall k :: 0 <= k < |note| ==> NotesOf(r)[k] == Str(note[k])
    {
      var piece :| piece in AltSplit(p.sw, seps) && r == PieceRecord(varname, p, ReadPiece(p, piece), note, oref, switcher);
      PieceNotes(varname, p, ReadPiece(p, piece), note, oref, switcher);
    }
  }

  /** After an uncertain part `i`, the shared notes of every later round hold "uncertain". */
  lemma UncertainStays(parts: seq<string>, note0: seq<string>, i: nat, j: nat)
    requires i <= j < |parts| && Doubtful(parts[i])
    ensures Uncertain in NotesAfter(parts[..j + 1], note0)
  {
    var upto := parts[..j + 1];
    var before := NotesAfter(parts[..i], note0);
    var after := NotesAfter(upto, note0);
    Seqs.TakeTake(parts, i + 1, j + 1);
    NotesSnoc(parts, note0, i);
    assert NotesAfter(upto[..i + 1], note0) == before + [Uncertain];
    NotesGrow(upto, note0, i + 1);
    assert after[|before|] == Uncertain;
  }

  /**
   * Once part `i` is marked uncertain, every record of every later part `j`
   * carries the "uncertain" note, whether or not part `j` has a "?" of its own.
   */
  lemma UncertainLeaks(varname: string, parts: seq<string>, note0: seq<string>, t: RefTables,
                       switcher: map<string, Value>, seps: seq<string>, i: nat, j: nat)
    requires i <= j < |parts| && Doubtful(parts[i])
    ensures forall r :: r in PartRecords(varname, ReadPart(parts[j]), NotesAfter(parts[..j + 1], note0), t, switcher, seps) ==>
        Str(Uncertain) in NotesOf(r)
  {
    var note := NotesAfter(parts[..j + 1], note0);
    UncertainStays(parts, note0, i, j);
    var k :| 0 <= k < |note| && note[k] == Uncertain;
    PartRecordsKeepNotes(varname, ReadPart(parts[j]), note, t, switcher, seps);
    forall r | r in PartRecords(varname, ReadPart(parts[j]), note, t, switcher, seps)
      ensures Str(Uncertain) in NotesOf(r)
    {
      assert NotesOf(r)[k] == Str(Uncertain);
    }
  }

  /**
   * The records of a text cell are exactly those of its "/"-separated
   * parts: each the record of one piece of part `j`, read with the notes
   * shared after the first `j + 1` parts, so that `PieceRecordShape` gives
   * its breadcrumbs; every one names the variable first and has the
   * workbook as main source.
   */
  lemma ScanRecordsShape(varname: string, parts: seq<string>, note0: seq<string>, t: RefTables,
                         switcher: map<string, Value>, seps: seq<string>)
    ensures forall r :: r in ScanRecords(varname, parts, note0, t, switcher, seps) ==>
      r.mainSource == Some(MainSource) && |r.rawValue| >= 2 && r.rawValue[0] == Str(varname)
    ensures forall r :: r in ScanRecords(varname, parts, note0, t, switcher, seps) ==>
      exists j, piece :: (0 <= j < |parts| && piece in AltSplit(ReadPart(parts[j]).sw, seps)
        && r == PieceRecord(varname, ReadPart(parts[j]), ReadPiece(ReadPart(parts[j]), piece), NotesAfter(parts[..j + 1], note0),
                            PartSources(ReadPart(parts[j]), t), switcher))
    ensures forall j, piece :: 0 <= j < |parts| && piece in AltSplit(ReadPart(parts[j]).sw, seps) ==>
      PieceRecord(varname, ReadPart(parts[j]), ReadPiece(ReadPart(parts[j]), piece), NotesAfter(parts[..j + 1], note0),
                  PartSources(ReadPart(parts[j]), t), switcher) in ScanRecords(varname, parts, note0, t, switcher, seps)
  {
    forall r | r in ScanRecords(varname, parts, note0, t, switcher, seps)
      ensures exists j, piece :: (0 <= j < |parts| && piece in AltSplit(ReadPart(parts[j]).sw, seps)
        && r == PieceRecord(varname, ReadPart(parts[j]), ReadPiece(ReadPart(parts[j]), piece), NotesAfter(parts[..j + 1], note0),
                            PartSources(ReadPart(parts[j]), t), switcher))
      ensures r.mainSource == Some(MainSource) && |r.rawValue| >= 2 && r.rawValue[0] == Str(varname)
    {
      ScanRecordOrigin(varname, parts, note0, t, switcher, seps, r);
    }
    forall j, piece | 0 <= j < |parts| && piece in AltSplit(ReadPart(parts[j]).sw, seps)
      ensures PieceRecord(varname, ReadPart(parts[j]), ReadPiece(ReadPart(parts[j]), piece), NotesAfter(parts[..j + 1], note0),
                          PartSources(ReadPart(parts[j]), t), switcher) in ScanRecords(varname, parts, note0, t, switcher, seps)
    {
      ScanRecordPresent(varname, parts, note0, t, switcher, seps, j, piece);
    }
  }

  /** Where one record of a text cell comes from. */
  lemma ScanRecordOrigin(varname: string, parts: seq<string>, note0: seq<string>, t: RefTables,
                         switcher: map<string, Value>, seps: seq<string>, r: TraitRecord)
    requires r in ScanRecords(varname, parts, note0, t, switcher, seps)
    ensures exists j, piece :: (0 <= j < |parts| && piece in AltSplit(ReadPart(parts[j]).sw, seps)
      && r == PieceRecord(varname, ReadPart(parts[j]), ReadPiece(ReadPart(parts[j]), piece), NotesAfter(parts[..j + 1], note0),
                          PartSources(ReadPart(parts[j]), t), switcher))
    ensures r.mainSource == Some(MainSource) && |r.rawValue| >= 2 && r.rawValue[0] == Str(varname)
  {
    var f := Blocks(varname, parts, note0, t, switcher, seps);
    Seqs.ConcatFrom(f, |parts|, r);
    var j :| 0 <= j < |parts| && r in f(j);
    var p := ReadPart(parts[j]);
    var note := NotesAfter(parts[..j + 1], note0);
    assert r in PartRecords(varname, p, note, t, switcher, seps);
    PieceRecordsFrom(varname, p, AltSplit(p.sw, seps), note, PartSources(p, t), switcher);
    var piece :| piece in AltSplit(p.sw, seps) && r == PieceRecord(varname, p, ReadPiece(p, piece), note, PartSources(p, t), switcher);
    PieceRaw(varname, p, ReadPiece(p, piece), note, PartSources(p, t), switcher);
  }

  /** The record of each piece of each part of a text cell is among the cell's records. */
  lemma ScanRecordPresent(varname: string, parts: seq<string>, note0: seq<string>, t: RefTables,
                          switcher: map<string, Value>, seps: seq<string>, j: nat, piece: string)
    requires j < |parts| && piece in AltSplit(ReadPart(parts[j]).sw, seps)
    ensures PieceRecord(varname, ReadPart(parts[j]), ReadPiece(ReadPart(parts[j]), piece), NotesAfter(parts[..j + 1], note0),
                        PartSources(ReadPart(parts[j]), t), switcher) in ScanRecords(varname, parts, note0, t, switcher, seps)
  {
    var p := ReadPart(parts[j]);
    var note := NotesAfter(parts[..j + 1], note0);
    var r := PieceRecord(varname, p, ReadPiece(p, piece), note, PartSources(p, t), switcher);
    PieceRecordsHave(varname, p, AltSplit(p.sw, seps), note, PartSources(p, t), switcher, piece);
    var f := Blocks(varname, parts, note0, t, switcher, seps);
    assert r in f(j);
    Seqs.ConcatHave(f, |parts|, j, r);
  }

  /**
   * What `extract_value` gives for each kind of cell: a number gives one
   * record, its text and the font notes; a text gives the records of its
   * "/"-separated parts (see `ScanRecordsShape`), every one naming the
   * variable and the workbook and starting its notes with the font notes;
   * anything else raises AttributeError, as `val.split` does.
   */
  lemma ValueRecordsShape(target: Cell, switcher: map<string, Value>, varname: string, t: RefTables, seps: seq<string>)
    ensures var rs := ValueRecords(target, switcher, varname, t, seps);
      var font := FontNotes(target.font);
      && (target.value.Int? || target.value.Float? ==>
        && rs.Ok? && |rs.value| == 1
        && rs.value[0].rawValue == [Str(varname), Str(Show(target.value))]
        && rs.value[0].mainSource == None && rs.value[0].normValue == None
        && NotesOf(rs.value[0]) == Texts(font)
        && (rs.value[0].originalNotes.Some? <==> |font| > 0))
      && (target.value.Str? ==>
        && rs == Ok(ScanRecords(varname, Split(target.value.s, '/'), font, t, switcher, seps))
        && forall r :: r in rs.value ==>
          && r.mainSource == Some(MainSource) && |r.rawValue| >= 2 && r.rawValue[0] == Str(varname)
          && |font| <= |NotesOf(r)| && forall k :: 0 <= k < |font| ==> NotesOf(r)[k] == Str(font[k]))
      && (!(target.value.Int? || target.value.Float? || target.value.Str?) ==> rs == Err("AttributeError"))
  {
    if target.value.Str? {
      var parts := Split(target.value.s, '/');
      var font := FontNotes(target.font);
      forall r | r in ScanRecords(varname, parts, font, t, switcher, seps)
        ensures && r.mainSource == Some(MainSource) && |r.rawValue| >= 2 && r.rawValue[0] == Str(varname)
                && |font| <= |NotesOf(r)| && forall k :: 0 <= k < |font| ==> NotesOf(r)[k] == Str(font[k])
      {
        ScanRecordOrigin(varname, parts, font, t, switcher, seps, r);
        var j, piece :| 0 <= j < |parts| && piece in AltSplit(ReadPart(parts[j]).sw, seps)
          && r == PieceRecord(varname, ReadPart(parts[j]), ReadPiece(ReadPart(parts[j]), piece), NotesAfter(parts[..j + 1], font),
                              PartSources(ReadPart(parts[j]), t), switcher);
        var note := NotesAfter(parts[..j + 1], font);
        NotesGrow(parts[..j + 1], font, 0);
        assert parts[..j + 1][..0] == [];
        PieceNotes(varname, ReadPart(parts[j]), ReadPiece(ReadPart(parts[j]), piece), note, PartSources(ReadPart(parts[j]), t), switcher);
        forall k | 0 <= k < |font|
          ensures NotesOf(r)[k] == Str(font[k])
        {
          assert note[k] == font[k];
        }
      }
    }
  }

  /** `extract_value`. */
  method ExtractValue(target: Cell, switcher: map<string, Value>, varname: string, t: RefTables, seps: seq<string>)
    returns (r: Result<seq<TraitRecord>>)
    requires target.value != Null
    requires forall i :: 0 <= i < |seps| ==> |seps[i]| > 0
    ensures r == ValueRecords(target, switcher, varname, t, seps)
  {
    var note := FontNotes(target.font);
    var val := target.value;
    if val.Int? || val.Float? {
      return Ok([NumberRecord(Str(varname), val, note)]);
    }
    if !val.Str? {
      return Err("AttributeError");
    }
    var rslts := ScanText(varname, Split(val.s, '/'), note, t, switcher, seps);
    return Ok(rslts);
  }

  /** The outer loop of `extract_value`, over the "/"-separated parts of a text cell. */
  method ScanText(varname: string, parts: seq<string>, note0: seq<string>, t: RefTables,
                  switcher: map<string, Value>, seps: seq<string>) returns (rslts: seq<TraitRecord>)
    ensures rslts == ScanRecords(varname, parts, note0, t, switcher, seps)
  {
    var note := note0;
    rslts := [];
    var i := 0;
    while i < |parts|
      invariant 0 <= i <= |parts|
      invariant note == NotesAfter(parts[..i], note0)
      invariant rslts == Seqs.Concat(Blocks(varname, parts, note0, t, switcher, seps), i)
    {
      NotesSnoc(parts, note0, i);
      ScanStep(varname, parts, note0, t, switcher, seps, i);
      note, rslts := ReadOnePart(varname, note, rslts, parts[i], t, switcher, seps);
      i := i + 1;
    }
  }

  /** The body of the outer loop of `extract_value`: one "/"-separated part. */
  method ReadOnePart(varname: string, note0: seq<string>, rslts0: seq<TraitRecord>, raw: string, t: RefTables,
                     switcher: map<string, Value>, seps: seq<string>) returns (note: seq<string>, rslts: seq<TraitRecord>)
    ensures note == NoteStep(note0, raw)
    ensures rslts == rslts0 + PartRecords(varname, ReadPart(raw), note, t, switcher, seps)
  {
    var p := ReadPart(raw);
    var oref: seq<string> := [];
    if p.refs {
      oref := ResolveGroups(p.w, t);
    }
    note := note0;
    if p.uncertain {
      note := note + [Uncertain];
    }
    var more := SplitPieces(varname, p, AltSplit(p.sw, seps), note, oref, switcher);
    assert oref == PartSources(p, t);
    rslts := rslts0 + more;
  }

  /** The inner loop of `extract_value`: one record per piece of a part, with the notes shared so far. */
  method SplitPieces(varname: string, p: Part, pieces: seq<string>, note: seq<string>, oref: seq<string>,
                     switcher: map<string, Value>) returns (rslts: seq<TraitRecord>)
    ensures rslts == PieceRecords(varname, p, pieces, note, oref, switcher)
  {
    rslts := [];
    var j := 0;
    while j < |pieces|
      invariant 0 <= j <= |pieces|
      invariant rslts == PieceRecords(varname, p, pieces[..j], note, oref, switcher)
    {
      var record := PieceRecord(varname, p, ReadPiece(p, pieces[j]), note, oref, switcher);
      Seqs.TakeTake(pieces, j, j + 1);
      rslts := rslts + [record];
      j := j + 1;
    }
    Seqs.TakeAll(pieces);
  }
}
