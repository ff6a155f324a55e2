/**
 * The rows and "switch" dicts the field-survey importers read
 * (lib/fireveg.py): a row is the tuple of cell values of one spreadsheet
 * line; a switch maps the keys of the output records to the column each is
 * read from, to a list of columns, or to a value given outright.
 */
module FieldSwitch {
  import opened Wrappers
  import opened PyValues
  import opened Dicts

  /** A switch dict: a key names a column by its index, a list of columns, or holds a value of its own. */
  type Switch = Dict<Value>

  /** `item[i].value` for a Python index: a negative one counts from the end; one out of range reads as empty. */
  function CellValue(item: seq<Value>, i: int): Value {
    if 0 <= i < |item| then item[i]
    else if -|item| <= i < 0 then item[|item| + i]
    else Null
  }

  /** `sw[k]` names a single column. */
  predicate IsCol(sw: Switch, k: string) {
    Has(sw, k) && sw.items[k].Int?
  }

  /** `sw[k]` is a list of columns. */
  predicate IsCols(sw: Switch, k: string) {
    && Has(sw, k) && sw.items[k].List?
    && forall j :: 0 <= j < |sw.items[k].items| ==> sw.items[k].items[j].Int?
  }

  /** `item[sw[k]].value`. */
  function Read(item: seq<Value>, sw: Switch, k: string): Value
    requires IsCol(sw, k)
  {
    CellValue(item, sw.items[k].i)
  }

  /** Every key of `cols` that the switch has names a column. */
  predicate OptionalCols(sw: Switch, cols: seq<string>) {
    forall j :: 0 <= j < |cols| ==> Has(sw, cols[j]) ==> IsCol(sw, cols[j])
  }

  /**
   * The loop `for column in cols: if column in sw.keys(): ...` that copies
   * every value that is usable, that is neither None nor "na"/"NA".
   */
  function CopyUsable(rec: Record, item: seq<Value>, sw: Switch, cols: seq<string>): Record
    requires OptionalCols(sw, cols)
  {
    if cols == [] then rec
    else
      var c := cols[|cols| - 1];
      var before := CopyUsable(rec, item, sw, cols[..|cols| - 1]);
      if Has(sw, c) && Usable(Read(item, sw, c)) then Put(before, c, Read(item, sw, c)) else before
  }

  /**
   * After the copy, a listed key holds the row's value exactly when the
   * switch has the key and the value is usable; any other key is as before.
   */
  lemma {:induction false} CopyUsableGet(rec: Record, item: seq<Value>, sw: Switch, cols: seq<string>, k: string)
    requires OptionalCols(sw, cols)
    requires DistinctKeys(cols)
    ensures k in cols && Has(sw, k) && Usable(Read(item, sw, k)) ==>
      Get(CopyUsable(rec, item, sw, cols), k) == Some(Read(item, sw, k))
    ensures !(k in cols && Has(sw, k) && Usable(Read(item, sw, k))) ==>
      Get(CopyUsable(rec, item, sw, cols), k) == Get(rec, k)
  {
    if cols != [] {
      var init := cols[..|cols| - 1];
      assert OptionalCols(sw, init);
      assert DistinctKeys(init);
      CopyUsableGet(rec, item, sw, init, k);
      assert k in cols ==> k in init || k == cols[|cols| - 1];
      assert cols[|cols| - 1] !in init;
    }
  }

  /** One more column of the copying loop. */
  lemma CopyUsableStep(rec: Record, item: seq<Value>, sw: Switch, cols: seq<string>, i: nat)
    requires OptionalCols(sw, cols) && i < |cols|
    ensures OptionalCols(sw, cols[..i]) && OptionalCols(sw, cols[..i + 1])
    ensures var before := CopyUsable(rec, item, sw, cols[..i]); var c := cols[i];
      CopyUsable(rec, item, sw, cols[..i + 1]) ==
        if Has(sw, c) && Usable(Read(item, sw, c)) then Put(before, c, Read(item, sw, c)) else before
  {
    assert cols[..i + 1][..i] == cols[..i];
  }

  /** The copying loop. */
  method CopyColumns(rec: Record, item: seq<Value>, sw: Switch, cols: seq<string>) returns (r: Record)
    requires OptionalCols(sw, cols)
    ensures r == CopyUsable(rec, item, sw, cols)
  {
    r := rec;
    var i := 0;
    while i < |cols|
      invariant 0 <= i <= |cols|
      invariant OptionalCols(sw, cols[..i])
      invariant r == CopyUsable(rec, item, sw, cols[..i])
    {
      var column := cols[i];
      CopyUsableStep(rec, item, sw, cols, i);
      if Has(sw, column) {
        var val := Read(item, sw, column);
        if val != Null && val != Str("na") && val != Str("NA") {
          r := Put(r, column, val);
        }
      }
      i := i + 1;
    }
    assert cols[..|cols|] == cols;
  }
}
