/**
 * Field site, field visit and field sample records built from one row of a
 * field-survey workbook (lib/fireveg.py, `create_field_site_record`,
 * `create_field_visit_record` and `create_field_sample_record`).
 */
module FieldSites {
  import opened Wrappers
  import opened Text
  import opened PyValues
  import opened Dicts
  import opened FieldSwitch

  // ---------------------------------------------------------------------
  // create_field_site_record

  /** The optional columns a site record copies when usable. */
  const SiteColumns: seq<string> := ["elevation", "location_description", "gps_uncertainty_m", "gps_geom_description"]

  /** The spatial reference of longitude/latitude coordinates. */
  const LonLatSrid := 4326

  /** A row names a real site: its site is set and is not the "Site" of a header row. */
  predicate IsSiteLabel(site: Value) {
    site != Null && site != Str("Site")
  }

  /**
   * What `create_field_site_record` demands of its switch: a site site
   * column, columns for the optional keys it has, lists of columns for
   * "lons"/"lats" and "xs"/"ys", and a UTM zone (fixed or read) with "xs".
   */
  predicate SiteSwitch(sw: Switch) {
    && IsCol(sw, "site_label")
    && OptionalCols(sw, SiteColumns)
    && (Has(sw, "lons") ==> IsCols(sw, "lons") && IsCols(sw, "lats"))
    && (Has(sw, "xs") ==> IsCols(sw, "xs") && IsCols(sw, "ys") && (!Has(sw, "fixed_utm_zone") ==> IsCol(sw, "utm_zone")))
  }

  /** The coordinates and spatial reference as the function leaves them; None is a variable never bound. */
  datatype Geo = Geo(xlon: Option<Value>, ylat: Option<Value>, srid: Option<int>)

  /** `for xs in cols: xlon = item[xs].value`: the value of the last column, or what was bound before for none. */
  function LastRead(item: seq<Value>, cols: seq<Value>, prior: Option<Value>): (r: Option<Value>)
    requires forall j :: 0 <= j < |cols| ==> cols[j].Int?
    ensures |cols| > 0 ==> r == Some(CellValue(item, cols[|cols| - 1].i))
    ensures |cols| == 0 ==> r == prior
  {
    if cols == [] then prior else Some(CellValue(item, cols[|cols| - 1].i))
  }

  /** UTM zones 54, 55 and 56 are GDA94 / MGA zones 54 to 56; any other zone leaves the spatial reference as it was. */
  function ZoneSrid(zone: Value, prior: Option<int>): Option<int> {
    if zone == Int(56) then Some(28356)
    else if zone == Int(55) then Some(28355)
    else if zone == Int(54) then Some(28354)
    else prior
  }

  /** The UTM zone: the fixed one when the switch has it, the row's otherwise. */
  function UtmZone(item: seq<Value>, sw: Switch): Value
    requires SiteSwitch(sw) && Has(sw, "xs")
  {
    if Has(sw, "fixed_utm_zone") then sw.items["fixed_utm_zone"] else Read(item, sw, "utm_zone")
  }

  /** The coordinates after the "lons"/"lats" block (spatial reference 4326), then the "xs"/"ys" block. */
  function SiteGeo(item: seq<Value>, sw: Switch): Geo
    requires SiteSwitch(sw)
  {
    var g := if Has(sw, "lons") then
               Geo(LastRead(item, sw.items["lons"].items, None), LastRead(item, sw.items["lats"].items, None), Some(LonLatSrid))
             else Geo(None, None, None);
    if Has(sw, "xs") then
      Geo(LastRead(item, sw.items["xs"].items, g.xlon), LastRead(item, sw.items["ys"].items, g.ylat), ZoneSrid(UtmZone(item, sw), g.srid))
    else g
  }

  /** The `geom` text: a point in the given spatial reference. */
  function PointText(x: Value, y: Value, srid: int): string {
    "ST_GeomFromText('POINT(" + Show(x) + " " + Show(y) + ")', " + IntToString(srid) + ")"
  }

  /**
   * `srid is not None and xlon is not None and ylat is not None`: reading a
   * variable that was never bound raises UnboundLocalError, and the test
   * stops at the first empty coordinate.
   */
  function GeomOf(g: Geo): (r: Result<Option<string>>)
    ensures r.Ok? && r.value.Some? <==> g.srid.Some? && g.xlon.Some? && g.xlon.value != Null && g.ylat.Some? && g.ylat.value != Null
    ensures r.Ok? && r.value.Some? ==> r.value.value == PointText(g.xlon.value, g.ylat.value, g.srid.value)
    ensures r.Err? <==> g.srid.None? || g.xlon.None? || (g.xlon.value != Null && g.ylat.None?)
  {
    if g.srid.None? || g.xlon.None? then Err("UnboundLocalError")
    else if g.xlon.value == Null then Ok(None)
    else if g.ylat.None? then Err("UnboundLocalError")
    else if g.ylat.value == Null then Ok(None)
    else Ok(Some(PointText(g.xlon.value, g.ylat.value, g.srid.value)))
  }

  /** `create_field_site_record`: nothing for a row without a site, otherwise the record or the exception raised. */
  function SiteRecord(item: seq<Value>, sw: Switch): Result<Option<Record>>
    requires SiteSwitch(sw)
  {
    var site := Read(item, sw, "site_label");
    if !IsSiteLabel(site) then Ok(None)
    else
      var rec := CopyUsable(Put(Empty(), "site_label", site), item, sw, SiteColumns);
      var geom := GeomOf(SiteGeo(item, sw));
      if geom.Err? then Err(geom.error)
      else if geom.value.Some? then Ok(Some(Put(rec, "geom", Str(geom.value.value))))
      else Ok(Some(rec))
  }

  /** A row gives no site record exactly when its site is empty or "Site"; those rows never raise. */
  lemma SiteSkipped(item: seq<Value>, sw: Switch)
    requires SiteSwitch(sw)
    ensures SiteRecord(item, sw) == Ok(None) <==> !IsSiteLabel(Read(item, sw, "site_label"))
  {
  }

  /**
   * A site record holds the site, holds each optional column exactly when
   * the switch has it and its value is usable, and holds a geometry exactly
   * when a spatial reference was set and both coordinates are non-empty.
   */
  lemma SiteRecordFields(item: seq<Value>, sw: Switch, k: string)
    requires SiteSwitch(sw)
    requires SiteRecord(item, sw).Ok? && SiteRecord(item, sw).value.Some?
    ensures var r := SiteRecord(item, sw).value.value;
      && Get(r, "site_label") == Some(Read(item, sw, "site_label"))
      && (k in SiteColumns ==>
            Get(r, k) == if Has(sw, k) && Usable(Read(item, sw, k)) then Some(Read(item, sw, k)) else None)
      && (Has(r, "geom") <==> GeomOf(SiteGeo(item, sw)) != Ok(None))
  {
    var site := Read(item, sw, "site_label");
    var base := Put(Empty(), "site_label", site);
    assert DistinctKeys(SiteColumns);
    CopyUsableGet(base, item, sw, SiteColumns, k);
    CopyUsableGet(base, item, sw, SiteColumns, "site_label");
    CopyUsableGet(base, item, sw, SiteColumns, "geom");
  }

  /**
   * The spatial reference: 4326 for longitude/latitude; 28354 to 28356 for
   * UTM zones 54 to 56, which override the longitude/latitude one; unset
   * for a switch with neither, or another zone without longitudes.
   */
  lemma SiteSrid(item: seq<Value>, sw: Switch)
    requires SiteSwitch(sw)
    ensures Has(sw, "xs") && UtmZone(item, sw) in {Int(54), Int(55), Int(56)} ==>
      SiteGeo(item, sw).srid == Some(28300 + UtmZone(item, sw).i)
    ensures Has(sw, "lons") && !(Has(sw, "xs") && UtmZone(item, sw) in {Int(54), Int(55), Int(56)}) ==>
      SiteGeo(item, sw).srid == Some(LonLatSrid)
    ensures !Has(sw, "lons") && !(Has(sw, "xs") && UtmZone(item, sw) in {Int(54), Int(55), Int(56)}) ==>
      SiteGeo(item, sw).srid.None?
  {
  }

  /** `create_field_site_record`. */
  method CreateFieldSiteRecord(item: seq<Value>, sw: Switch) returns (r: Result<Option<Record>>)
    requires SiteSwitch(sw)
    ensures r == SiteRecord(item, sw)
  {
    var siteLabel := Read(item, sw, "site_label");
    if siteLabel == Null || siteLabel == Str("Site") {
      return Ok(None);
    }
    var record := Put(Empty(), "site_label", siteLabel);
    record := CopyColumns(record, item, sw, SiteColumns);
    var xlon: Option<Value> := None;
    var ylat: Option<Value> := None;
    var srid: Option<int> := None;
    if Has(sw, "lons") {
      xlon := LastCell(item, sw.items["lons"].items, xlon);
      ylat := LastCell(item, sw.items["lats"].items, ylat);
      srid := Some(LonLatSrid);
    }
    if Has(sw, "xs") {
      xlon := LastCell(item, sw.items["xs"].items, xlon);
      ylat := LastCell(item, sw.items["ys"].items, ylat);
      var utmZone := if Has(sw, "fixed_utm_zone") then sw.items["fixed_utm_zone"] else Read(item, sw, "utm_zone");
      if utmZone == Int(56) {
        srid := Some(28356);
      } else if utmZone == Int(55) {
        srid := Some(28355);
      } else if utmZone == Int(54) {
        srid := Some(28354);
      }
    }
    assert Geo(xlon, ylat, srid) == SiteGeo(item, sw);
    if srid.None? || xlon.None? {
      return Err("UnboundLocalError");
    }
    if xlon.value != Null {
      if ylat.None? {
        return Err("UnboundLocalError");
      }
      if ylat.value != Null {
        record := Put(record, "geom", Str(PointText(xlon.value, ylat.value, srid.value)));
      }
    }
    return Ok(Some(record));
  }

  /** `for xs in cols: xlon = item[xs].value`. */
  method LastCell(item: seq<Value>, cols: seq<Value>, prior: Option<Value>) returns (r: Option<Value>)
    requires forall j :: 0 <= j < |cols| ==> cols[j].Int?
    ensures r == LastRead(item, cols, prior)
  {
    r := prior;
    for j := 0 to |cols|
      invariant r == LastRead(item, cols[..j], prior)
    {
      r := Some(CellValue(item, cols[j].i));
    }
    assert cols[..|cols|] == cols;
  }

  // ---------------------------------------------------------------------
  // create_field_visit_record

  /** The optional columns of a visit record. */
  const VisitColumns: seq<string> := ["visit_description", "mainobserver", "observerlist", "replicate_nr"]

  /** What `create_field_visit_record` demands of its switch: a site site column, a list of date columns, columns for the optional keys. */
  predicate VisitSwitch(sw: Switch) {
    && IsCol(sw, "site_label")
    && IsCols(sw, "visit_date")
    && OptionalCols(sw, VisitColumns)
  }

  /** The optional columns of a visit, copied when usable; "observerlist" is split on "," and must be text. */
  function VisitFields(rec: Record, item: seq<Value>, sw: Switch, cols: seq<string>): Result<Record>
    requires OptionalCols(sw, cols)
  {
    if cols == [] then Ok(rec)
    else
      var before := VisitFields(rec, item, sw, cols[..|cols| - 1]);
      var c := cols[|cols| - 1];
      if before.Err? || !Has(sw, c) then before
      else
        var val := Read(item, sw, c);
        if !Usable(val) then before
        else if c != "observerlist" then Ok(Put(before.value, c, val))
        else if val.Str? then Ok(Put(before.value, c, Strs(Split(val.s, ','))))
        else Err("AttributeError")
  }

  /** The visit record for one date. */
  function VisitRecord(item: seq<Value>, sw: Switch, site: Value, date: Value): Result<Record>
    requires VisitSwitch(sw)
  {
    var rec := Put(Put(Empty(), "visit_id", site), "visit_date", date);
    var rec' := if Has(sw, "survey") then Put(rec, "survey_name", sw.items["survey"]) else rec;
    VisitFields(rec', item, sw, VisitColumns)
  }

  /** The loop over the date columns: one record per date that is a datetime, for a row naming a site. */
  function VisitRecords(item: seq<Value>, sw: Switch, dates: seq<Value>): Result<seq<Record>>
    requires VisitSwitch(sw)
    requires forall j :: 0 <= j < |dates| ==> dates[j].Int?
  {
    if dates == [] then Ok([])
    else
      var before := VisitRecords(item, sw, dates[..|dates| - 1]);
      var site := Read(item, sw, "site_label");
      var date := CellValue(item, dates[|dates| - 1].i);
      if before.Err? || !IsSiteLabel(site) || !date.DateTime? then before
      else
        var r := VisitRecord(item, sw, site, date);
        if r.Err? then Err(r.error) else Ok(before.value + [r.value])
  }

  /** `create_field_visit_record`. */
  function FieldVisitRecords(item: seq<Value>, sw: Switch): Result<seq<Record>>
    requires VisitSwitch(sw)
  {
    VisitRecords(item, sw, sw.items["visit_date"].items)
  }

  /** The values of the listed date columns that are datetimes. */
  function DatesIn(item: seq<Value>, dates: seq<Value>): (ds: seq<Value>)
    requires forall j :: 0 <= j < |dates| ==> dates[j].Int?
    ensures forall j :: 0 <= j < |ds| ==> ds[j].DateTime?
  {
    if dates == [] then []
    else
      var date := CellValue(item, dates[|dates| - 1].i);
      DatesIn(item, dates[..|dates| - 1]) + (if date.DateTime? then [date] else [])
  }

  /**
   * A row naming a site gives, when it raises nothing, one record per
   * datetime among its date columns, in order, each with the site as
   * `visit_id` and that datetime as `visit_date`; any other row gives none.
   */
  lemma {:induction false} VisitRecordsDates(item: seq<Value>, sw: Switch, dates: seq<Value>)
    requires VisitSwitch(sw)
    requires forall j :: 0 <= j < |dates| ==> dates[j].Int?
    requires VisitRecords(item, sw, dates).Ok?
    ensures var rs := VisitRecords(item, sw, dates).value; var site := Read(item, sw, "site_label");
      && (!IsSiteLabel(site) ==> rs == [])
      && (IsSiteLabel(site) ==>
            && |rs| == |DatesIn(item, dates)|
            && forall j :: 0 <= j < |rs| ==>
                 Get(rs[j], "visit_id") == Some(site) && Get(rs[j], "visit_date") == Some(DatesIn(item, dates)[j]))
  {
    if dates != [] {
      var init := dates[..|dates| - 1];
      VisitRecordsDates(item, sw, init);
      var site := Read(item, sw, "site_label");
      var date := CellValue(item, dates[|dates| - 1].i);
      if IsSiteLabel(site) && date.DateTime? {
        VisitRecordKeys(item, sw, site, date);
      }
    }
  }

  /** A visit record keeps its site, its date and the survey name of the switch. */
  lemma VisitRecordKeys(item: seq<Value>, sw: Switch, site: Value, date: Value)
    requires VisitSwitch(sw)
    requires VisitRecord(item, sw, site, date).Ok?
    ensures var r := VisitRecord(item, sw, site, date).value;
      && Get(r, "visit_id") == Some(site) && Get(r, "visit_date") == Some(date)
      && Get(r, "survey_name") == (if Has(sw, "survey") then Some(sw.items["survey"]) else None)
  {
    var rec := Put(Put(Empty(), "visit_id", site), "visit_date", date);
    var rec' := if Has(sw, "survey") then Put(rec, "survey_name", sw.items["survey"]) else rec;
    VisitFieldsKeep(rec', item, sw, VisitColumns, "visit_id");
    VisitFieldsKeep(rec', item, sw, VisitColumns, "visit_date");
    VisitFieldsKeep(rec', item, sw, VisitColumns, "survey_name");
  }

  /** The optional columns touch only their own keys: "observerlist" holds its list of names. */
  lemma {:induction false} VisitFieldsKeep(rec: Record, item: seq<Value>, sw: Switch, cols: seq<string>, k: string)
    requires OptionalCols(sw, cols)
    requires k !in cols
    requires VisitFields(rec, item, sw, cols).Ok?
    ensures Get(VisitFields(rec, item, sw, cols).value, k) == Get(rec, k)
  {
    if cols != [] {
      var init := cols[..|cols| - 1];
      assert OptionalCols(sw, init);
      assert k !in init;
      VisitFieldsKeep(rec, item, sw, init, k);
    }
  }

  /**
   * The visit fields raise exactly when the switch has an observer list
   * whose value is usable but not text; otherwise the observer list is the
   * value split on ",".
   */
  lemma {:induction false} VisitFieldsObservers(rec: Record, item: seq<Value>, sw: Switch, cols: seq<string>)
    requires OptionalCols(sw, cols)
    requires DistinctKeys(cols)
    ensures var observers := "observerlist" in cols && Has(sw, "observerlist") && Usable(Read(item, sw, "observerlist"));
      && (VisitFields(rec, item, sw, cols).Err? <==> observers && !Read(item, sw, "observerlist").Str?)
      && (observers && Read(item, sw, "observerlist").Str? ==>
            Get(VisitFields(rec, item, sw, cols).value, "observerlist") == Some(Strs(Split(Read(item, sw, "observerlist").s, ','))))
  {
    if cols != [] {
      var init := cols[..|cols| - 1];
      assert OptionalCols(sw, init);
      assert DistinctKeys(init);
      assert cols[|cols| - 1] !in init;
      VisitFieldsObservers(rec, item, sw, init);
    }
  }

  /** Once a date raises, the loop has raised: later dates change nothing. */
  lemma {:induction false} VisitRecordsStop(item: seq<Value>, sw: Switch, dates: seq<Value>, n: nat)
    requires VisitSwitch(sw)
    requires forall j :: 0 <= j < |dates| ==> dates[j].Int?
    requires n <= |dates| && VisitRecords(item, sw, dates[..n]).Err?
    ensures VisitRecords(item, sw, dates) == VisitRecords(item, sw, dates[..n])
  {
    if n < |dates| {
      var init := dates[..|dates| - 1];
      assert init[..n] == dates[..n];
      VisitRecordsStop(item, sw, init, n);
    } else {
      assert dates[..n] == dates;
    }
  }

  /** The visit fields of one more column, from those of the columns before it. */
  lemma VisitFieldsStep(rec: Record, item: seq<Value>, sw: Switch, cols: seq<string>, j: nat)
    requires OptionalCols(sw, cols) && j < |cols|
    ensures OptionalCols(sw, cols[..j]) && OptionalCols(sw, cols[..j + 1])
    ensures VisitFields(rec, item, sw, cols[..j + 1]) ==
      var before := VisitFields(rec, item, sw, cols[..j]);
      var c := cols[j];
      if before.Err? || !Has(sw, c) then before
      else
        var val := Read(item, sw, c);
        if !Usable(val) then before
        else if c != "observerlist" then Ok(Put(before.value, c, val))
        else if val.Str? then Ok(Put(before.value, c, Strs(Split(val.s, ','))))
        else Err("AttributeError")
  {
    assert cols[..j + 1][..j] == cols[..j];
  }

  /** Once a column raises, the copying has raised: later columns change nothing. */
  lemma {:induction false} VisitFieldsStop(rec: Record, item: seq<Value>, sw: Switch, cols: seq<string>, n: nat)
    requires OptionalCols(sw, cols)
    requires n <= |cols| && OptionalCols(sw, cols[..n]) && VisitFields(rec, item, sw, cols[..n]).Err?
    ensures VisitFields(rec, item, sw, cols) == VisitFields(rec, item, sw, cols[..n])
  {
    if n < |cols| {
      var init := cols[..|cols| - 1];
      assert init[..n] == cols[..n];
      assert OptionalCols(sw, init);
      VisitFieldsStop(rec, item, sw, init, n);
    } else {
      assert cols[..n] == cols;
    }
  }

  /** `create_field_visit_record`. */
  method CreateFieldVisitRecord(item: seq<Value>, sw: Switch) returns (r: Result<seq<Record>>)
    requires VisitSwitch(sw)
    ensures r == FieldVisitRecords(item, sw)
  {
    var siteLabel := Read(item, sw, "site_label");
    var dates := sw.items["visit_date"].items;
    var records: seq<Record> := [];
    for j := 0 to |dates|
      invariant VisitRecords(item, sw, dates[..j]) == Ok(records)
    {
      var more := VisitDate(item, sw, dates, j, records);
      if more.Err? {
        VisitRecordsStop(item, sw, dates, j + 1);
        return more;
      }
      records := more.value;
    }
    assert dates[..|dates|] == dates;
    return Ok(records);
  }

  /** One turn of the loop over the date columns. */
  method VisitDate(item: seq<Value>, sw: Switch, dates: seq<Value>, j: nat, records: seq<Record>) returns (r: Result<seq<Record>>)
    requires VisitSwitch(sw)
    requires forall i :: 0 <= i < |dates| ==> dates[i].Int?
    requires j < |dates| && VisitRecords(item, sw, dates[..j]) == Ok(records)
    ensures r == VisitRecords(item, sw, dates[..j + 1])
  {
    assert dates[..j + 1][..j] == dates[..j];
    var siteLabel := Read(item, sw, "site_label");
    var visitDate := CellValue(item, dates[j].i);
    if siteLabel != Null && siteLabel != Str("Site") && visitDate.DateTime? {
      var record := VisitRecordOf(item, sw, siteLabel, visitDate);
      if record.Err? {
        return Err(record.error);
      }
      return Ok(records + [record.value]);
    }
    return Ok(records);
  }

  /** The body of the loop of `create_field_visit_record` for one datetime. */
  method VisitRecordOf(item: seq<Value>, sw: Switch, siteLabel: Value, visitDate: Value) returns (r: Result<Record>)
    requires VisitSwitch(sw)
    ensures r == VisitRecord(item, sw, siteLabel, visitDate)
  {
    var record := Put(Put(Empty(), "visit_id", siteLabel), "visit_date", visitDate);
    if Has(sw, "survey") {
      record := Put(record, "survey_name", sw.items["survey"]);
    }
    ghost var rec0 := record;
    for j := 0 to |VisitColumns|
      invariant VisitFields(rec0, item, sw, VisitColumns[..j]) == Ok(record)
    {
      var column := VisitColumns[j];
      VisitFieldsStep(rec0, item, sw, VisitColumns, j);
      if Has(sw, column) {
        var val := Read(item, sw, column);
        if val != Null && val != Str("na") && val != Str("NA") {
          if column == "observerlist" {
            if !val.Str? {
              VisitFieldsStop(rec0, item, sw, VisitColumns, j + 1);
              return Err("AttributeError");
            }
            val := Strs(Split(val.s, ','));
          }
          record := Put(record, column, val);
        }
      }
    }
    assert VisitColumns[..|VisitColumns|] == VisitColumns;
    return Ok(record);
  }

  // ---------------------------------------------------------------------
  // create_field_sample_record

  /** What `create_field_sample_record` demands of its switch: a visit column, and columns for the keys it reads. */
  predicate SampleSwitch(sw: Switch) {
    && IsCol(sw, "visit_id")
    && (Has(sw, "replicate_nr") ==> IsCol(sw, "replicate_nr"))
    && (Has(sw, "sample_nr") ==> IsCol(sw, "sample_nr"))
    && (Has(sw, "date") ==> IsCol(sw, "date"))
  }

  /**
   * The replicate number: read from the row when the switch has a column
   * for it, the switch's fixed one otherwise, None when it has neither.
   */
  function SampleReplicate(item: seq<Value>, sw: Switch): Value
    requires SampleSwitch(sw)
  {
    if Has(sw, "replicate_nr") then Read(item, sw, "replicate_nr")
    else if Has(sw, "fixed_replicate_nr") then sw.items["fixed_replicate_nr"]
    else Null
  }

  /**
   * `create_field_sample_record`. The test `visit_id not in ('Site
   * Number')` is a substring test on a string, not a tuple membership: any
   * part of "Site Number" (the empty text included) is skipped, and a visit
   * that is not text raises TypeError.
   */
  function SampleRecord(item: seq<Value>, sw: Switch): Result<Option<Record>>
    requires SampleSwitch(sw)
  {
    var visitId := Read(item, sw, "visit_id");
    if visitId == Null then Ok(None)
    else if !visitId.Str? then Err("TypeError")
    else if Contains("Site Number", visitId.s) then Ok(None)
    else
      var samplenr := if Has(sw, "sample_nr") then Read(item, sw, "sample_nr") else Null;
      var rec := Put(Put(Put(Empty(), "visit_id", visitId), "replicate_nr", SampleReplicate(item, sw)), "sample_nr", samplenr);
      if Has(sw, "date") && Read(item, sw, "date").DateTime? then Ok(Some(Put(rec, "visit_date", Day(Read(item, sw, "date").date))))
      else Ok(Some(rec))
  }

  /**
   * A sample record always has the keys `visit_id`, `replicate_nr` and
   * `sample_nr` (None when the switch does not track them) and has
   * `visit_date`, as a date, exactly when the date cell holds a datetime.
   */
  lemma SampleRecordKeys(item: seq<Value>, sw: Switch)
    requires SampleSwitch(sw)
    requires SampleRecord(item, sw).Ok? && SampleRecord(item, sw).value.Some?
    ensures var r := SampleRecord(item, sw).value.value;
      && Get(r, "visit_id") == Some(Read(item, sw, "visit_id"))
      && Get(r, "replicate_nr") == Some(SampleReplicate(item, sw))
      && Get(r, "sample_nr") == Some(if Has(sw, "sample_nr") then Read(item, sw, "sample_nr") else Null)
      && (Has(r, "visit_date") <==> Has(sw, "date") && Read(item, sw, "date").DateTime?)
      && (Has(r, "visit_date") ==> Get(r, "visit_date") == Some(Day(Read(item, sw, "date").date)))
      && r.keys[..3] == ["visit_id", "replicate_nr", "sample_nr"]
  {
  }

  /** "Site Number" itself, its words "Site" and "Number" and the empty text are all skipped: each is part of "Site Number". */
  lemma SampleSkipsHeader(item: seq<Value>, sw: Switch)
    requires SampleSwitch(sw)
    ensures Read(item, sw, "visit_id") in {Str("Site Number"), Str("Site"), Str("Number"), Str("")} ==>
      SampleRecord(item, sw) == Ok(None)
  {
    var s := "Site Number";
    assert MatchAt(s, "Site Number", 0) && MatchAt(s, "Site", 0) && MatchAt(s, "Number", 5) && MatchAt(s, "", 0);
  }

  /** `create_field_sample_record`. */
  method CreateFieldSampleRecord(item: seq<Value>, sw: Switch) returns (r: Result<Option<Record>>)
    requires SampleSwitch(sw)
    ensures r == SampleRecord(item, sw)
  {
    var visitId := Read(item, sw, "visit_id");
    if visitId == Null {
      return Ok(None);
    }
    if !visitId.Str? {
      return Err("TypeError");
    }
    if Contains("Site Number", visitId.s) {
      return Ok(None);
    }
    var replicatenr: Value;
    if Has(sw, "replicate_nr") {
      replicatenr := Read(item, sw, "replicate_nr");
    } else if Has(sw, "fixed_replicate_nr") {
      replicatenr := sw.items["fixed_replicate_nr"];
    } else {
      replicatenr := Null;
    }
    var samplenr := Null;
    if Has(sw, "sample_nr") {
      samplenr := Read(item, sw, "sample_nr");
    }
    var record := Put(Put(Put(Empty(), "visit_id", visitId), "replicate_nr", replicatenr), "sample_nr", samplenr);
    if Has(sw, "date") {
      var visitDate := Read(item, sw, "date");
      if visitDate.DateTime? {
        record := Put(record, "visit_date", Day(visitDate.date));
      }
    }
    return Ok(Some(record));
  }
}
