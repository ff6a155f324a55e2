/**
 * `create_fire_history_record` (lib/fireveg.py): one fire-history record
 * per switch of a row, holding the row's values for the switch's keys and,
 * for the fire date, the text given and the earliest and latest day it can
 * stand for. A fire date is a datetime, a year (an int or a string of
 * digits), or free text: `<` and `>` are dropped with a note each, and a
 * range `YYYY-YYYY` or `YYYY-YY` gives both bounds.
 */
module FireHistory {
  import opened Wrappers
  import opened Text
  import opened PyValues
  import opened Dicts
  import opened FieldSwitch

  const MissingNote := "Fire date is missing or empty"
  const GivenAsNote := "Fire date given as: "
  const MaxMinNote := "max/min value given"

  /** The characters that `re.findall("[<>]", vals)` finds. */
  const Angles: set<char> := {'<', '>'}

  /** Every key of `ks` names a column: the function reads `item[sw[k]]` for each key of a switch. */
  predicate AllCols(sw: Switch, ks: seq<string>) {
    forall j :: 0 <= j < |ks| ==> IsCol(sw, ks[j])
  }

  /** What `create_fire_history_record` demands of a switch. */
  predicate FireSwitch(sw: Switch) {
    IsCol(sw, "site_label") && AllCols(sw, sw.keys)
  }

  // ---------------------------------------------------------------------
  // The fire date

  /** `datetime(y, 1, 1).date()` (`end` false) or `datetime(y, 12, 31).date()` (`end` true). */
  function YearDay(y: int, end: bool): (r: Result<Date>)
    ensures r.Ok? <==> 1 <= y <= 9999
    ensures r.Ok? ==> r.value.year == y
  {
    if 1 <= y <= 9999 then Ok(if end then YearEnd(y) else YearStart(y)) else Err("ValueError")
  }

  function Lift(d: Result<Date>): Result<Option<Date>> {
    if d.Err? then Err(d.error) else Ok(Some(d.value))
  }

  /** What the fire-date column gives: the text kept as `fire_date`, the bounds found and the notes. */
  datatype FireDate = FireDate(text: Value, earliest: Option<Date>, latest: Option<Date>, notes: seq<string>)

  /** `n` copies of a note. */
  function Repeat(x: string, n: nat): (r: seq<string>)
    ensures |r| == n && forall i :: 0 <= i < n ==> r[i] == x
  {
    if n == 0 then [] else Repeat(x, n - 1) + [x]
  }

  /** The text after `for i in found: vals = vals.replace(i, "")`. */
  function DropAll(s: string, found: string): string {
    if found == [] then s else Without(DropAll(s, found[..|found| - 1]), found[|found| - 1])
  }

  /** The characters of `s` that are not in `cs`, in order. */
  function RemoveChars(s: string, cs: set<char>): (r: string)
    ensures forall i :: 0 <= i < |r| ==> r[i] !in cs
  {
    if s == [] then [] else (if s[0] in cs then [] else [s[0]]) + RemoveChars(s[1..], cs)
  }

  /** The earliest day of `a-b`: the first of January of `a` when `a` is four digits. */
  function LowBound(a: string): Result<Option<Date>> {
    if |a| == 4 && IsNumeric(a) then Lift(YearDay(ParseNat(a), false)) else Ok(None)
  }

  /**
   * The latest day of `a-b`: the last of December of `b` when it is four
   * digits; of `a[0:2] + b`, read by `int`, when `b` is two digits.
   */
  function HighBound(a: string, b: string): Result<Option<Date>> {
    if |b| == 4 && IsNumeric(b) then Lift(YearDay(ParseNat(b), true))
    else if |b| == 2 && IsNumeric(b) then
      var y := ParseInt(Slice(a, 0, 2) + b);
      if y.None? then Err("ValueError") else Lift(YearDay(y.value, true))
    else Ok(None)
  }

  /** The bounds `vals.split("-")` gives when it has exactly two parts. */
  function RangeBounds(t: string): Result<(Option<Date>, Option<Date>)> {
    var ws := Split(t, '-');
    if |ws| != 2 then Ok((None, None))
    else
      var lo := LowBound(ws[0]);
      var hi := HighBound(ws[0], ws[1]);
      if lo.Err? then Err(lo.error)
      else if hi.Err? then Err(hi.error)
      else Ok((lo.value, hi.value))
  }

  /** A fire date given as text that is not a number. */
  function TextDate(s: string): Result<FireDate> {
    var found := Keep(s, Angle);
    var b := RangeBounds(DropAll(s, found));
    if b.Err? then Err(b.error)
    else Ok(FireDate(Str(s), b.value.0, b.value.1, [GivenAsNote + s] + Repeat(MaxMinNote, |found|)))
  }

  /** The fire-date branch of the loop over the switch's keys, for a value that is not None. */
  function FireDateOf(v: Value): Result<FireDate> {
    match v
    case DateTime(d) => Ok(FireDate(Str(DateText(d)), Some(d), Some(d), []))
    case Int(i) =>
      if i <= 0 then Ok(FireDate(Str(IntToString(i)), None, None, [MissingNote]))
      else if i > 9999 then Err("ValueError")
      else Ok(FireDate(Str(IntToString(i)), Some(YearStart(i)), Some(YearEnd(i)), []))
    case Str(s) =>
      if IsNumeric(s) then
        var y := ParseNat(s);
        if 1 <= y <= 9999 then Ok(FireDate(Str(s), Some(YearStart(y)), Some(YearEnd(y)), []))
        else Err("ValueError")
      else TextDate(s)
    case _ => Err("AttributeError")
  }

  // ---------------------------------------------------------------------
  // The records

  /** The record and the notes the loop over a switch's keys builds. */
  datatype FireAcc = FireAcc(rec: Record, comms: seq<string>)

  /** Writes a fire date: `fire_date`, then the bounds it has. */
  function PutDate(rec: Record, f: FireDate): Record {
    var r1 := Put(rec, "fire_date", f.text);
    var r2 := if f.earliest.Some? then Put(r1, "earliest_date", Day(f.earliest.value)) else r1;
    if f.latest.Some? then Put(r2, "latest_date", Day(f.latest.value)) else r2
  }

  /** `for k in sw.keys()`: None is skipped, the fire date is read as a date, any other value copied. */
  function FireFields(item: seq<Value>, sw: Switch, keys: seq<string>): Result<FireAcc>
    requires AllCols(sw, keys)
  {
    if keys == [] then Ok(FireAcc(Empty(), []))
    else
      var before := FireFields(item, sw, keys[..|keys| - 1]);
      var k := keys[|keys| - 1];
      var v := Read(item, sw, k);
      if before.Err? || v == Null then before
      else if k != "fire_date" then Ok(FireAcc(Put(before.value.rec, k, v), before.value.comms))
      else
        var f := FireDateOf(v);
        if f.Err? then Err(f.error)
        else Ok(FireAcc(PutDate(before.value.rec, f.value), before.value.comms + f.value.notes))
  }

  /** The record of one switch: none for the header row ("Site") or for one holding a single key. */
  function FireHistoryRecord(item: seq<Value>, sw: Switch): Result<Option<Record>>
    requires FireSwitch(sw)
  {
    if Read(item, sw, "site_label") == Str("Site") then Ok(None)
    else
      var acc := FireFields(item, sw, sw.keys);
      if acc.Err? then Err(acc.error)
      else
        var rec := if |acc.value.comms| > 0 then Put(acc.value.rec, "notes", Strs(acc.value.comms)) else acc.value.rec;
        if Len(rec) > 1 then Ok(Some(rec)) else Ok(None)
  }

  /** `create_fire_history_record`: the records of the switches in order, or the first exception. */
  function FireHistoryRecords(item: seq<Value>, colDicts: seq<Switch>): Result<seq<Record>>
    requires forall j :: 0 <= j < |colDicts| ==> FireSwitch(colDicts[j])
  {
    if colDicts == [] then Ok([])
    else
      var before := FireHistoryRecords(item, colDicts[..|colDicts| - 1]);
      var r := FireHistoryRecord(item, colDicts[|colDicts| - 1]);
      if before.Err? then before
      else if r.Err? then Err(r.error)
      else if r.value.Some? then Ok(before.value + [r.value.value])
      else before
  }

  // ---------------------------------------------------------------------
  // Properties

  /** A year given as an int and the same year given as its digits read alike. */
  lemma YearTextAgrees(y: nat)
    requires 1 <= y <= 9999
    ensures FireDateOf(Int(y)).Ok? && FireDateOf(Str(NatToString(y))).Ok?
    ensures var a := FireDateOf(Int(y)).value; var b := FireDateOf(Str(NatToString(y))).value;
      a == b && a.earliest == Some(YearStart(y)) && a.latest == Some(YearEnd(y)) && a.notes == []
  {
    ParseShow(y);
  }

  /** A datetime is a fire date of one day; a year that is not positive is missing, with a note. */
  lemma FireDateKinds(v: Value)
    ensures v.DateTime? ==> FireDateOf(v).Ok? && FireDateOf(v).value.earliest == FireDateOf(v).value.latest == Some(v.date)
    ensures v.Int? && v.i <= 0 ==> FireDateOf(v) == Ok(FireDate(Str(IntToString(v.i)), None, None, [MissingNote]))
    ensures v.Int? && v.i > 9999 ==> FireDateOf(v) == Err("ValueError")
    ensures !(v.DateTime? || v.Int? || v.Str?) ==> FireDateOf(v) == Err("AttributeError")
  {
  }

  lemma {:induction false} WithoutRemove(s: string, cs: set<char>, c: char)
    ensures Without(RemoveChars(s, cs), c) == RemoveChars(s, cs + {c})
  {
    if s != [] {
      WithoutRemove(s[1..], cs, c);
      var rest := RemoveChars(s[1..], cs);
      var x := s[0];
      if x in cs {
        assert x in cs + {c};
        assert RemoveChars(s, cs) == rest;
        assert RemoveChars(s, cs + {c}) == RemoveChars(s[1..], cs + {c});
      } else {
        assert RemoveChars(s, cs) == [x] + rest;
        assert ([x] + rest)[0] == x && ([x] + rest)[1..] == rest;
        assert Without([x] + rest, c) == (if x == c then [] else [x]) + Without(rest, c);
        assert x in cs + {c} <==> x == c;
      }
    }
  }

  /** The characters of a string, as a set. */
  function CharsOf(f: string): (cs: set<char>)
    ensures forall c :: c in cs <==> c in f
  {
    if f == [] then {} else CharsOf(f[..|f| - 1]) + {f[|f| - 1]}
  }

  lemma {:induction false} DropAllRemove(s: string, found: string)
    ensures DropAll(s, found) == RemoveChars(s, CharsOf(found))
  {
    if found == [] {
      RemoveNone(s);
    } else {
      var init := found[..|found| - 1];
      DropAllRemove(s, init);
      WithoutRemove(s, CharsOf(init), found[|found| - 1]);
    }
  }

  lemma {:induction false} RemoveNone(s: string)
    ensures RemoveChars(s, {}) == s
  {
    if s != [] { RemoveNone(s[1..]); }
  }

  /** Removing two sets of characters that agree on the characters of `s` gives the same text. */
  lemma {:induction false} RemoveSame(s: string, a: set<char>, b: set<char>)
    requires forall i :: 0 <= i < |s| ==> (s[i] in a <==> s[i] in b)
    ensures RemoveChars(s, a) == RemoveChars(s, b)
  {
    if s != [] { RemoveSame(s[1..], a, b); }
  }

  lemma {:induction false} KeepHas(s: string, cls: CharClass, c: char)
    ensures c in Keep(s, cls) <==> c in s && In(c, cls)
  {
    if s != [] {
      KeepHas(s[1..], cls, c);
      assert c in s <==> c == s[0] || c in s[1..];
    }
  }

  /** The loop over the `<` and `>` found drops every one of them and keeps every other character. */
  lemma AnglesDropped(s: string)
    ensures DropAll(s, Keep(s, Angle)) == RemoveChars(s, Angles)
  {
    var found := Keep(s, Angle);
    DropAllRemove(s, found);
    forall i | 0 <= i < |s|
      ensures s[i] in CharsOf(found) <==> s[i] in Angles
    {
      KeepHas(s, Angle, s[i]);
    }
    RemoveSame(s, CharsOf(found), Angles);
  }

  /**
   * A fire date given as text keeps the text, notes it, and adds one note
   * per `<` or `>` in it; its bounds are those of the text without them.
   */
  lemma TextDateNotes(s: string)
    requires !IsNumeric(s)
    ensures FireDateOf(Str(s)) == TextDate(s)
    ensures var b := RangeBounds(RemoveChars(s, Angles));
      && (FireDateOf(Str(s)).Err? <==> b.Err?)
      && (b.Ok? ==>
            var f := FireDateOf(Str(s)).value;
            && f.text == Str(s) && f.earliest == b.value.0 && f.latest == b.value.1
            && |f.notes| == 1 + |Keep(s, Angle)| && f.notes[0] == GivenAsNote + s
            && forall i :: 1 <= i < |f.notes| ==> f.notes[i] == MaxMinNote)
  {
    AnglesDropped(s);
  }

  /** Splitting `a-b` on "-", where `a` and `b` hold no "-", gives the two sides. */
  lemma SplitPair(a: string, b: string)
    requires '-' !in a && '-' !in b
    ensures Split(a + "-" + b, '-') == [a, b]
  {
    var s := a + "-" + b;
    IndexOfAt(s, '-', |a|);
    assert s[..|a|] == a && s[|a| + 1..] == b;
  }

  /** Four digits, then "-", then four digits: the first of January of the one to the last of December of the other. */
  lemma FullRange(a: string, b: string)
    requires |a| == 4 && IsNumeric(a) && |b| == 4 && IsNumeric(b)
    requires 1 <= ParseNat(a) && 1 <= ParseNat(b)
    ensures RangeBounds(a + "-" + b) == Ok((Some(YearStart(ParseNat(a))), Some(YearEnd(ParseNat(b)))))
  {
    ParseBelow(a);
    ParseBelow(b);
    SplitPair(a, b);
  }

  /** Four digits, then "-", then two: the second year is in the century of the first ("1990-95" ends in 1995). */
  lemma ShortRange(a: string, b: string)
    requires |a| == 4 && IsNumeric(a) && |b| == 2 && IsNumeric(b)
    requires 1 <= ParseNat(a) && 1 <= ParseNat(a) / 100 * 100 + ParseNat(b)
    ensures RangeBounds(a + "-" + b) ==
      Ok((Some(YearStart(ParseNat(a))), Some(YearEnd(ParseNat(a) / 100 * 100 + ParseNat(b)))))
  {
    ParseBelow(a);
    SplitPair(a, b);
    ShortHigh(a, b);
    assert LowBound(a) == Ok(Some(YearStart(ParseNat(a))));
  }

  lemma ShortHigh(a: string, b: string)
    requires |a| == 4 && IsNumeric(a) && |b| == 2 && IsNumeric(b)
    requires 1 <= ParseNat(a) / 100 * 100 + ParseNat(b)
    ensures HighBound(a, b) == Ok(Some(YearEnd(ParseNat(a) / 100 * 100 + ParseNat(b))))
  {
    ShortYear(a, b);
  }

  /** `int(a[0:2] + b)` for four digits `a` and two digits `b`. */
  lemma ShortYear(a: string, b: string)
    requires |a| == 4 && IsNumeric(a) && |b| == 2 && IsNumeric(b)
    ensures ParseInt(Slice(a, 0, 2) + b) == Some(ParseNat(a) / 100 * 100 + ParseNat(b))
    ensures ParseNat(a) / 100 * 100 + ParseNat(b) < 10000
  {
    var c := a[..2];
    var d := a[2..];
    assert Slice(a, 0, 2) == c;
    assert a == c + d;
    ParseNatAppend(c, d);
    ParseBelow(d);
    ParseBelow(c);
    ParseBelow(b);
    assert ParseNat(a) == ParseNat(c) * 100 + ParseNat(d);
    assert ParseNat(a) / 100 == ParseNat(c);
    ParseNatAppend(c, b);
    assert IsNumeric(c + b);
    ParseIntDigits(c + b);
  }

  /** A number of `n` digits is below `10^n`. */
  lemma {:induction false} ParseBelow(s: string)
    requires forall i :: 0 <= i < |s| ==> IsDigit(s[i])
    ensures ParseNat(s) < Pow10(|s|)
  {
    if s != [] {
      ParseBelow(s[..|s| - 1]);
    }
  }

  /** A text that does not split into exactly two parts on "-" has no bounds. */
  lemma NoRange(t: string)
    requires |Split(t, '-')| != 2
    ensures RangeBounds(t) == Ok((None, None))
  {
  }

  /** Once a key raises, the loop over the keys has raised. */
  lemma {:induction false} FireFieldsStop(item: seq<Value>, sw: Switch, keys: seq<string>, n: nat)
    requires AllCols(sw, keys)
    requires n <= |keys| && FireFields(item, sw, keys[..n]).Err?
    ensures FireFields(item, sw, keys) == FireFields(item, sw, keys[..n])
  {
    if n < |keys| {
      var init := keys[..|keys| - 1];
      assert init[..n] == keys[..n];
      FireFieldsStop(item, sw, init, n);
    } else {
      assert keys[..n] == keys;
    }
  }

  /** A key other than the fire date and its bounds holds the row's value exactly when that is not None. */
  lemma {:induction false} FireFieldsOther(item: seq<Value>, sw: Switch, keys: seq<string>, k: string)
    requires AllCols(sw, keys)
    requires k != "fire_date" && k != "earliest_date" && k != "latest_date"
    requires FireFields(item, sw, keys).Ok?
    ensures Get(FireFields(item, sw, keys).value.rec, k) ==
      if k in keys && Read(item, sw, k) != Null then Some(Read(item, sw, k)) else None
  {
    if keys != [] {
      var init := keys[..|keys| - 1];
      assert AllCols(sw, init);
      FireFieldsOtherStep(item, sw, keys, k);
      FireFieldsOther(item, sw, init, k);
      assert k in keys <==> k in init || k == keys[|keys| - 1];
    }
  }

  /** A key other than the date keys, after one more key of the loop. */
  lemma FireFieldsOtherStep(item: seq<Value>, sw: Switch, keys: seq<string>, k: string)
    requires keys != [] && AllCols(sw, keys)
    requires k != "fire_date" && k != "earliest_date" && k != "latest_date"
    requires FireFields(item, sw, keys).Ok?
    ensures AllCols(sw, keys[..|keys| - 1]) && FireFields(item, sw, keys[..|keys| - 1]).Ok?
    ensures Get(FireFields(item, sw, keys).value.rec, k) ==
      if keys[|keys| - 1] == k && Read(item, sw, k) != Null then Some(Read(item, sw, k))
      else Get(FireFields(item, sw, keys[..|keys| - 1]).value.rec, k)
  {
    var init := keys[..|keys| - 1];
    assert AllCols(sw, init);
    var before := FireFields(item, sw, init);
    var last := keys[|keys| - 1];
    var v := Read(item, sw, last);
    if v != Null && last == "fire_date" {
      PutDateOther(before.value.rec, FireDateOf(v).value, k);
    }
  }

  /** Writing a fire date leaves every key other than the date keys alone. */
  lemma PutDateOther(rec: Record, f: FireDate, k: string)
    requires k != "fire_date" && k != "earliest_date" && k != "latest_date"
    ensures Get(PutDate(rec, f), k) == Get(rec, k)
  {
  }

  function DayOf(d: Option<Date>): Option<Value> {
    if d.Some? then Some(Day(d.value)) else None
  }

  /**
   * The fire date's fields: for a switch with a fire-date column whose value
   * is not None, the loop raises exactly when reading the date does, and
   * otherwise holds its text, its bounds and its notes; without one, none.
   */
  lemma {:induction false} FireFieldsDate(item: seq<Value>, sw: Switch, keys: seq<string>)
    requires AllCols(sw, keys) && DistinctKeys(keys)
    requires "earliest_date" !in keys && "latest_date" !in keys
    ensures var acc := FireFields(item, sw, keys);
      var has := "fire_date" in keys && Read(item, sw, "fire_date") != Null;
      && (acc.Err? <==> has && FireDateOf(Read(item, sw, "fire_date")).Err?)
      && (acc.Ok? && has ==>
            var f := FireDateOf(Read(item, sw, "fire_date")).value;
            && Get(acc.value.rec, "fire_date") == Some(f.text)
            && Get(acc.value.rec, "earliest_date") == DayOf(f.earliest)
            && Get(acc.value.rec, "latest_date") == DayOf(f.latest)
            && acc.value.comms == f.notes)
      && (acc.Ok? && !has ==>
            && !Has(acc.value.rec, "fire_date") && !Has(acc.value.rec, "earliest_date")
            && !Has(acc.value.rec, "latest_date") && acc.value.comms == [])
  {
    if keys != [] {
      var init := keys[..|keys| - 1];
      var k := keys[|keys| - 1];
      assert AllCols(sw, init) && DistinctKeys(init);
      assert "earliest_date" !in init && "latest_date" !in init;
      assert k !in init;
      assert "fire_date" in keys <==> "fire_date" in init || k == "fire_date";
      FireFieldsDate(item, sw, init);
    }
  }

  /** Every record has more than one key; the header row ("Site") gives none. */
  lemma {:induction false} FireHistoryShape(item: seq<Value>, colDicts: seq<Switch>)
    requires forall j :: 0 <= j < |colDicts| ==> FireSwitch(colDicts[j])
    requires FireHistoryRecords(item, colDicts).Ok?
    ensures var rs := FireHistoryRecords(item, colDicts).value;
      && |rs| <= |colDicts|
      && (forall j :: 0 <= j < |rs| ==> Len(rs[j]) > 1)
      && ((forall j :: 0 <= j < |colDicts| ==> Read(item, colDicts[j], "site_label") == Str("Site")) ==> rs == [])
  {
    if colDicts != [] {
      FireHistoryShape(item, colDicts[..|colDicts| - 1]);
    }
  }

  // ---------------------------------------------------------------------
  // The function as written

  /** `create_fire_history_record`. */
  method CreateFireHistoryRecord(item: seq<Value>, colDicts: seq<Switch>) returns (r: Result<seq<Record>>)
    requires forall j :: 0 <= j < |colDicts| ==> FireSwitch(colDicts[j])
    ensures r == FireHistoryRecords(item, colDicts)
  {
    var records: seq<Record> := [];
    for j := 0 to |colDicts|
      invariant FireHistoryRecords(item, colDicts[..j]) == Ok(records)
    {
      var sw := colDicts[j];
      assert colDicts[..j + 1][..j] == colDicts[..j];
      var record := FireHistoryRecordOf(item, sw);
      if record.Err? {
        HistoryStop(item, colDicts, j + 1);
        return Err(record.error);
      }
      if record.value.Some? {
        records := records + [record.value.value];
      }
    }
    assert colDicts[..|colDicts|] == colDicts;
    return Ok(records);
  }

  lemma {:induction false} HistoryStop(item: seq<Value>, colDicts: seq<Switch>, n: nat)
    requires forall j :: 0 <= j < |colDicts| ==> FireSwitch(colDicts[j])
    requires n <= |colDicts| && FireHistoryRecords(item, colDicts[..n]).Err?
    ensures FireHistoryRecords(item, colDicts) == FireHistoryRecords(item, colDicts[..n])
  {
    if n < |colDicts| {
      var init := colDicts[..|colDicts| - 1];
      assert init[..n] == colDicts[..n];
      HistoryStop(item, init, n);
    } else {
      assert colDicts[..n] == colDicts;
    }
  }

  /** The body of the loop over the switches. */
  method FireHistoryRecordOf(item: seq<Value>, sw: Switch) returns (r: Result<Option<Record>>)
    requires FireSwitch(sw)
    ensures r == FireHistoryRecord(item, sw)
  {
    var record: Record := Empty();
    var comms: seq<string> := [];
    if Read(item, sw, "site_label") == Str("Site") {
      return Ok(None);
    }
    for j := 0 to |sw.keys|
      invariant FireFields(item, sw, sw.keys[..j]) == Ok(FireAcc(record, comms))
    {
      var acc := FireKey(item, sw, j, record, comms);
      if acc.Err? {
        FireFieldsStop(item, sw, sw.keys, j + 1);
        return Err(acc.error);
      }
      record := acc.value.rec;
      comms := acc.value.comms;
    }
    assert sw.keys[..|sw.keys|] == sw.keys;
    if |comms| > 0 {
      record := Put(record, "notes", Strs(comms));
    }
    if Len(record) > 1 {
      return Ok(Some(record));
    }
    return Ok(None);
  }

  /** One turn of the loop over the keys of a switch. */
  method FireKey(item: seq<Value>, sw: Switch, j: nat, record: Record, comms: seq<string>) returns (r: Result<FireAcc>)
    requires FireSwitch(sw)
    requires j < |sw.keys| && FireFields(item, sw, sw.keys[..j]) == Ok(FireAcc(record, comms))
    ensures r == FireFields(item, sw, sw.keys[..j + 1])
  {
    var k := sw.keys[j];
    assert sw.keys[..j + 1][..j] == sw.keys[..j];
    var vals := Read(item, sw, k);
    if vals == Null {
      return Ok(FireAcc(record, comms));
    }
    if k == "fire_date" {
      var f := ReadFireDate(vals);
      if f.Err? {
        return Err(f.error);
      }
      return Ok(FireAcc(PutDate(record, f.value), comms + f.value.notes));
    }
    return Ok(FireAcc(Put(record, k, vals), comms));
  }

  /** The fire-date branch. */
  method ReadFireDate(vals: Value) returns (r: Result<FireDate>)
    ensures r == FireDateOf(vals)
  {
    if vals.DateTime? {
      return Ok(FireDate(Str(DateText(vals.date)), Some(vals.date), Some(vals.date), []));
    } else if vals.Int? {
      if vals.i > 0 {
        if vals.i > 9999 {
          return Err("ValueError");
        }
        return Ok(FireDate(Str(IntToString(vals.i)), Some(YearStart(vals.i)), Some(YearEnd(vals.i)), []));
      }
      return Ok(FireDate(Str(IntToString(vals.i)), None, None, [MissingNote]));
    } else if !vals.Str? {
      return Err("AttributeError");
    } else if IsNumeric(vals.s) {
      var y := ParseNat(vals.s);
      if y < 1 || y > 9999 {
        return Err("ValueError");
      }
      return Ok(FireDate(vals, Some(YearStart(y)), Some(YearEnd(y)), []));
    }
    r := ReadTextDate(vals.s);
  }

  /** The free-text branch: the loop over the `<` and `>` found, then the split on "-". */
  method ReadTextDate(s: string) returns (r: Result<FireDate>)
    ensures r == TextDate(s)
  {
    var comms := [GivenAsNote + s];
    var vals := s;
    var found := Keep(s, Angle);
    for i := 0 to |found|
      invariant vals == DropAll(s, found[..i])
      invariant comms == [GivenAsNote + s] + Repeat(MaxMinNote, i)
    {
      DropStep(s, found, i);
      NotesStep(GivenAsNote + s, MaxMinNote, i);
      comms := comms + [MaxMinNote];
      vals := Without(vals, found[i]);
    }
    assert found[..|found|] == found;
    var bounds := ReadRange(vals);
    if bounds.Err? {
      return Err(bounds.error);
    }
    return Ok(FireDate(Str(s), bounds.value.0, bounds.value.1, comms));
  }

  /** Dropping one more of the characters found. */
  lemma DropStep(s: string, found: string, i: nat)
    requires i < |found|
    ensures DropAll(s, found[..i + 1]) == Without(DropAll(s, found[..i]), found[i])
  {
    assert found[..i + 1][..i] == found[..i];
  }

  /** One more note after the first. */
  lemma NotesStep(first: string, note: string, i: nat)
    ensures [first] + Repeat(note, i) + [note] == [first] + Repeat(note, i + 1)
  {
  }

  /** `ws = vals.split("-")` and the bounds read from its two parts. */
  method ReadRange(vals: string) returns (r: Result<(Option<Date>, Option<Date>)>)
    ensures r == RangeBounds(vals)
  {
    var ws := Split(vals, '-');
    var earliest: Option<Date> := None;
    var latest: Option<Date> := None;
    if |ws| == 2 {
      if |ws[0]| == 4 && IsNumeric(ws[0]) {
        var y := ParseNat(ws[0]);
        if y < 1 || y > 9999 {
          return Err("ValueError");
        }
        earliest := Some(YearStart(y));
      }
      if |ws[1]| == 4 && IsNumeric(ws[1]) {
        var y := ParseNat(ws[1]);
        if y < 1 || y > 9999 {
          return Err("ValueError");
        }
        latest := Some(YearEnd(y));
      } else if |ws[1]| == 2 && IsNumeric(ws[1]) {
        var y := ParseInt(Slice(ws[0], 0, 2) + ws[1]);
        if y.None? || y.value < 1 || y.value > 9999 {
          return Err("ValueError");
        }
        latest := Some(YearEnd(y.value));
      }
    }
    return Ok((earliest, latest));
  }
}
