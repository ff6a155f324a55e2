/**
 * `batch_upsert` (lib/firevegdb.py): one INSERT per record that has more
 * keys than the key columns. With a constraint name the insert updates
 * every non-key column on conflict; without one it does nothing on
 * conflict. A `geom` value is put into the statement as it stands (it is
 * SQL that builds a geometry), not quoted: the record holds a placeholder
 * while the statement is rendered, and gets its geometry back afterwards.
 *
 * The statement text psycopg2 renders is modelled by the `Query` datatype;
 * the connection is left out, and the `rowcount` of the n-th statement
 * executed is given by the parameter `rowcount`.
 */
module BatchUpsert {
  import opened Wrappers
  import opened PyValues
  import opened Dicts

  /** A value in the VALUES tuple: quoted by `mogrify`, or SQL text put in as it stands. */
  datatype SqlValue = Quoted(v: Value) | Raw(text: string)

  /** `ON CONFLICT ON CONSTRAINT idx DO UPDATE SET ...` or `ON CONFLICT DO NOTHING`. */
  datatype Conflict = DoUpdate(constraint: string, assignments: seq<string>) | DoNothing

  /** `INSERT INTO table (columns) values (values) ON CONFLICT ...`. */
  datatype Query = Insert(table: string, columns: seq<string>, values: seq<SqlValue>, conflict: Conflict)

  /** The placeholder the geometry is swapped for while the statement is rendered. */
  const GeomPlaceholder := Str("GEOMSTR")

  /** `tuple(record.values())`, each value quoted. */
  function Quote(rec: Record): (vs: seq<SqlValue>)
    requires KeysHeld(rec)
    ensures |vs| == |rec.keys|
  {
    seq(|rec.keys|, i requires 0 <= i < |rec.keys| => Quoted(rec.items[rec.keys[i]]))
  }

  function Excluded(k: string): string {
    k + "=EXCLUDED." + k
  }

  /** The columns of `keys` that are not key columns, in order. */
  function NonKey(keys: seq<string>, keycol: seq<string>): (cs: seq<string>)
    ensures forall c :: c in cs <==> c in keys && c !in keycol
  {
    if keys == [] then []
    else NonKey(keys[..|keys| - 1], keycol) + (if keys[|keys| - 1] !in keycol then [keys[|keys| - 1]] else [])
  }

  /** The loop building `upd`: `col=EXCLUDED.col` for each key that is not a key column. */
  function SetList(keys: seq<string>, keycol: seq<string>): seq<string> {
    if keys == [] then []
    else
      var k := keys[|keys| - 1];
      SetList(keys[..|keys| - 1], keycol) + (if k !in keycol then [Excluded(k)] else [])
  }

  /** The statement `mogrify` renders for a record (before the geometry is put in). */
  function QueryOf(table: string, rec: Record, keycol: seq<string>, idx: Option<string>): Query
    requires KeysHeld(rec)
  {
    Insert(table, rec.keys, Quote(rec),
      if idx.Some? then DoUpdate(idx.value, SetList(rec.keys, keycol)) else DoNothing)
  }

  /** `qry.replace("'GEOMSTR'", the_geom)`: every quoted placeholder becomes the geometry's text. */
  function PutGeom(vs: seq<SqlValue>, geom: string): (ws: seq<SqlValue>)
    ensures |ws| == |vs|
    ensures forall i :: 0 <= i < |vs| ==> ws[i] == if vs[i] == Quoted(GeomPlaceholder) then Raw(geom) else vs[i]
  {
    seq(|vs|, i requires 0 <= i < |vs| => if vs[i] == Quoted(GeomPlaceholder) then Raw(geom) else vs[i])
  }

  /**
   * The statement for one record: the geometry, when there is one, is put
   * in place of its placeholder; `replace` raises TypeError for a geometry
   * that is not text.
   */
  function RecordQuery(table: string, rec: Record, keycol: seq<string>, idx: Option<string>): Result<Query>
    requires KeysHeld(rec)
  {
    if !Has(rec, "geom") then Ok(QueryOf(table, rec, keycol, idx))
    else
      var q := QueryOf(table, Put(rec, "geom", GeomPlaceholder), keycol, idx);
      var g := rec.items["geom"];
      if g.Str? then Ok(q.(values := PutGeom(q.values, g.s))) else Err("TypeError")
  }

  /** A record with more keys than the key columns, the ones that give a statement. */
  predicate Long(rec: Record, keycol: seq<string>) {
    Len(rec) > |keycol|
  }

  /** The statements of the loop over the records, in order, or the first exception. */
  function Plan(table: string, recs: seq<Record>, keycol: seq<string>, idx: Option<string>): Result<seq<Query>>
    requires forall i :: 0 <= i < |recs| ==> KeysHeld(recs[i])
  {
    if recs == [] then Ok([])
    else
      var before := Plan(table, recs[..|recs| - 1], keycol, idx);
      var rec := recs[|recs| - 1];
      if before.Err? || !Long(rec, keycol) then before
      else
        var q := RecordQuery(table, rec, keycol, idx);
        if q.Err? then Err(q.error) else Ok(before.value + [q.value])
  }

  /** The records that give a statement, in order. */
  function LongRecords(recs: seq<Record>, keycol: seq<string>): seq<Record> {
    if recs == [] then []
    else LongRecords(recs[..|recs| - 1], keycol) + (if Long(recs[|recs| - 1], keycol) then [recs[|recs| - 1]] else [])
  }

  /** `updated_rows` after `n` statements: the sum of their row counts that are positive. */
  function Updated(rowcount: nat -> int, n: nat): (u: nat) {
    if n == 0 then 0 else Updated(rowcount, n - 1) + (if rowcount(n - 1) > 0 then rowcount(n - 1) else 0)
  }

  /** What the call leaves: the statements it executed (or printed, in a dry run) and the rows they updated. */
  datatype Report = Report(queries: seq<Query>, updated: nat)

  // ---------------------------------------------------------------------
  // Properties

  /** The SET list is `col=EXCLUDED.col` for exactly the non-key columns, in the record's order. */
  lemma {:induction false} SetListColumns(keys: seq<string>, keycol: seq<string>)
    ensures var upd := SetList(keys, keycol); var cs := NonKey(keys, keycol);
      |upd| == |cs| && forall j :: 0 <= j < |cs| ==> upd[j] == Excluded(cs[j])
  {
    if keys != [] {
      SetListColumns(keys[..|keys| - 1], keycol);
    }
  }

  /** A statement inserts every column of the record, with its value quoted, except the geometry, which is put in as SQL. */
  lemma RecordQueryValues(table: string, rec: Record, keycol: seq<string>, idx: Option<string>)
    requires KeysHeld(rec)
    requires RecordQuery(table, rec, keycol, idx).Ok?
    ensures var q := RecordQuery(table, rec, keycol, idx).value;
      && q.table == table && q.columns == rec.keys && |q.values| == |rec.keys|
      && (forall i :: 0 <= i < |rec.keys| ==>
            q.values[i] == if rec.keys[i] == "geom" then Raw(rec.items["geom"].s)
                           else if Has(rec, "geom") && rec.items[rec.keys[i]] == GeomPlaceholder then Raw(rec.items["geom"].s)
                           else Quoted(rec.items[rec.keys[i]]))
      && (idx.None? ==> q.conflict == DoNothing)
      && (idx.Some? ==> q.conflict == DoUpdate(idx.value, SetList(rec.keys, keycol)))
  {
  }

  /** A geometry that is not text raises, whatever else the record holds. */
  lemma GeomNotText(table: string, rec: Record, keycol: seq<string>, idx: Option<string>)
    requires KeysHeld(rec)
    ensures RecordQuery(table, rec, keycol, idx).Err? <==> Has(rec, "geom") && !rec.items["geom"].Str?
  {
  }

  /** One statement per record with more keys than the key columns, for that record, in order. */
  lemma {:induction false} PlanRecords(table: string, recs: seq<Record>, keycol: seq<string>, idx: Option<string>)
    requires forall i :: 0 <= i < |recs| ==> KeysHeld(recs[i])
    requires Plan(table, recs, keycol, idx).Ok?
    ensures var qs := Plan(table, recs, keycol, idx).value; var ls := LongRecords(recs, keycol);
      && |qs| == |ls|
      && forall j :: 0 <= j < |qs| ==> KeysHeld(ls[j]) && Ok(qs[j]) == RecordQuery(table, ls[j], keycol, idx)
  {
    if recs != [] {
      var init := recs[..|recs| - 1];
      PlanRecords(table, init, keycol, idx);
      LongHeld(init, keycol);
    }
  }

  lemma {:induction false} LongHeld(recs: seq<Record>, keycol: seq<string>)
    requires forall i :: 0 <= i < |recs| ==> KeysHeld(recs[i])
    ensures forall j :: 0 <= j < |LongRecords(recs, keycol)| ==> KeysHeld(LongRecords(recs, keycol)[j])
  {
    if recs != [] {
      LongHeld(recs[..|recs| - 1], keycol);
    }
  }

  /** The loop raises exactly when a record that gives a statement has a geometry that is not text. */
  lemma {:induction false} PlanRaises(table: string, recs: seq<Record>, keycol: seq<string>, idx: Option<string>)
    requires forall i :: 0 <= i < |recs| ==> KeysHeld(recs[i])
    ensures Plan(table, recs, keycol, idx).Err? <==>
      exists i :: 0 <= i < |recs| && Long(recs[i], keycol) && Has(recs[i], "geom") && !recs[i].items["geom"].Str?
  {
    if recs != [] {
      var init := recs[..|recs| - 1];
      PlanRaises(table, init, keycol, idx);
      GeomNotText(table, recs[|recs| - 1], keycol, idx);
      if i :| 0 <= i < |init| && Long(init[i], keycol) && Has(init[i], "geom") && !init[i].items["geom"].Str? {
        assert recs[i] == init[i];
      }
      if i :| 0 <= i < |recs| && Long(recs[i], keycol) && Has(recs[i], "geom") && !recs[i].items["geom"].Str? {
        if i < |init| {
          assert init[i] == recs[i];
        }
      }
    }
  }

  /** The count only grows, and only by positive row counts. */
  lemma {:induction false} UpdatedGrows(rowcount: nat -> int, m: nat, n: nat)
    requires m <= n
    ensures Updated(rowcount, m) <= Updated(rowcount, n)
    ensures (forall j :: m <= j < n ==> rowcount(j) <= 0) ==> Updated(rowcount, m) == Updated(rowcount, n)
  {
    if m < n {
      UpdatedGrows(rowcount, m, n - 1);
    }
  }

  // ---------------------------------------------------------------------
  // The function as written

  /**
   * `batch_upsert`. It leaves every record as it found it; when it raises,
   * the record it raised on still holds the placeholder as its geometry.
   */
  method Upsert(table: string, records: array<Record>, keycol: seq<string>, idx: Option<string>, execute: bool, rowcount: nat -> int)
    returns (r: Result<Report>)
    requires forall i :: 0 <= i < records.Length ==> KeysHeld(records[i])
    modifies records
    ensures r.Ok? ==> records[..] == old(records[..])
    ensures r.Ok? ==> Plan(table, old(records[..]), keycol, idx) == Ok(r.value.queries)
    ensures r.Ok? ==> r.value.updated == if execute then Updated(rowcount, |r.value.queries|) else 0
    ensures r.Err? ==> Plan(table, old(records[..]), keycol, idx) == Err(r.error)
    ensures r.Err? ==> (exists i :: (0 <= i < records.Length
      && Plan(table, old(records[..])[..i], keycol, idx).Ok?
      && Long(old(records[..])[i], keycol) && RecordQuery(table, old(records[..])[i], keycol, idx).Err?
      && records[..] == old(records[..])[i := Put(old(records[i]), "geom", GeomPlaceholder)]))
  {
    ghost var recs := records[..];
    var queries: seq<Query> := [];
    var updatedRows: nat := 0;
    for i := 0 to records.Length
      invariant records[..] == recs
      invariant Plan(table, recs[..i], keycol, idx) == Ok(queries)
      invariant updatedRows == if execute then Updated(rowcount, |queries|) else 0
    {
      PlanStep(table, recs, keycol, idx, i);
      if Len(records[i]) > |keycol| {
        var qry := UpsertRecord(table, records, i, keycol, idx);
        if qry.Err? {
          PlanStop(table, recs, keycol, idx, i + 1);
          return Err(qry.error);
        }
        if execute {
          var n := rowcount(|queries|);
          if n > 0 {
            updatedRows := updatedRows + n;
          }
        }
        queries := queries + [qry.value];
      }
    }
    assert recs[..records.Length] == recs;
    return Ok(Report(queries, updatedRows));
  }

  /** The body of the loop for a record that gives a statement: the placeholder goes in, the statement is rendered, the geometry comes back. */
  method UpsertRecord(table: string, records: array<Record>, i: nat, keycol: seq<string>, idx: Option<string>) returns (r: Result<Query>)
    requires i < records.Length && KeysHeld(records[i])
    modifies records
    ensures r == RecordQuery(table, old(records[i]), keycol, idx)
    ensures r.Ok? ==> records[..] == old(records[..])
    ensures r.Err? ==> records[..] == old(records[..])[i := Put(old(records[i]), "geom", GeomPlaceholder)]
  {
    var record := records[i];
    var theGeom := Null;
    if Has(record, "geom") {
      theGeom := record.items["geom"];
      records[i] := Put(record, "geom", GeomPlaceholder);
    }
    var qry := Mogrify(table, records[i], keycol, idx);
    if Has(records[i], "geom") {
      if !theGeom.Str? {
        return Err("TypeError");
      }
      qry := qry.(values := PutGeom(qry.values, theGeom.s));
      PutPut(record, "geom", GeomPlaceholder, theGeom);
      PutSame(record, "geom", theGeom);
      records[i] := Put(records[i], "geom", theGeom);
    }
    return Ok(qry);
  }

  /** The plan of one more record, from the plan of those before it. */
  lemma PlanStep(table: string, recs: seq<Record>, keycol: seq<string>, idx: Option<string>, i: nat)
    requires forall j :: 0 <= j < |recs| ==> KeysHeld(recs[j])
    requires i < |recs|
    ensures Plan(table, recs[..i + 1], keycol, idx) ==
      var before := Plan(table, recs[..i], keycol, idx);
      if before.Err? || !Long(recs[i], keycol) then before
      else
        var q := RecordQuery(table, recs[i], keycol, idx);
        if q.Err? then Err(q.error) else Ok(before.value + [q.value])
  {
    assert recs[..i + 1][..i] == recs[..i];
  }

  lemma {:induction false} PlanStop(table: string, recs: seq<Record>, keycol: seq<string>, idx: Option<string>, n: nat)
    requires forall i :: 0 <= i < |recs| ==> KeysHeld(recs[i])
    requires n <= |recs| && Plan(table, recs[..n], keycol, idx).Err?
    ensures Plan(table, recs, keycol, idx) == Plan(table, recs[..n], keycol, idx)
  {
    if n < |recs| {
      var init := recs[..|recs| - 1];
      assert init[..n] == recs[..n];
      PlanStop(table, init, keycol, idx, n);
    } else {
      assert recs[..n] == recs;
    }
  }

  /** `cur.mogrify(qrystr, ...)`, with the loop that builds `upd` when there is a constraint. */
  method Mogrify(table: string, record: Record, keycol: seq<string>, idx: Option<string>) returns (q: Query)
    requires KeysHeld(record)
    ensures q == QueryOf(table, record, keycol, idx)
  {
    if idx.Some? {
      var upd: seq<string> := [];
      for j := 0 to |record.keys|
        invariant upd == SetList(record.keys[..j], keycol)
      {
        var k := record.keys[j];
        assert record.keys[..j + 1][..j] == record.keys[..j];
        if k !in keycol {
          upd := upd + [Excluded(k)];
        }
      }
      assert record.keys[..|record.keys|] == record.keys;
      q := Insert(table, record.keys, Quote(record), DoUpdate(idx.value, upd));
    } else {
      q := Insert(table, record.keys, Quote(record), DoNothing);
    }
  }
}
