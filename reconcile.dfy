/**
 * `validate_and_update_site_records` (lib/firevegdb.py): the sample
 * records of a spreadsheet are deduplicated, their visits are looked up in
 * the rows of `form.field_visit` fetched for the sites they name, each
 * record is told how many rows match it (and, found by replicate number,
 * given the date of the first match), and a visit and a sample are
 * inserted for every record of a known site that then has a date.
 *
 * The records are the caller's dicts, changed in place; `records` is
 * modelled as an array of them. The fetched rows are the parameter
 * `visits`; the `rowcount` of the n-th statement executed is given by the
 * parameter `rowcount`.
 */
module SiteVisits {
  import opened Wrappers
  import opened PyValues
  import opened Dicts
  import BatchUpsert

  /** A row of `SELECT DISTINCT visit_id,visit_date,replicate_nr FROM form.field_visit`. */
  datatype VisitRow = VisitRow(visitId: Value, visitDate: Value, replicateNr: Value)

  /** The two inserts the function issues, both `ON CONFLICT DO NOTHING`. */
  datatype Statement =
    | VisitInsert(visitId: Value, visitDate: Value)
    | SampleInsert(visitId: Value, visitDate: Value, sampleNr: Value)

  /** The result of the deduplication: the index of each record kept, and the distinct sites. */
  datatype Dedup = Dedup(unique: seq<nat>, sites: seq<Value>)

  /** What a run that does not raise leaves besides the changed records: the sites queried, the statements issued, the count printed. */
  datatype Outcome = Outcome(sites: seq<Value>, statements: seq<Statement>, updated: nat)

  predicate Increasing(s: seq<nat>) {
    forall i, j :: 0 <= i < j < |s| ==> s[i] < s[j]
  }

  predicate Distinct(s: seq<Value>) {
    forall i, j :: 0 <= i < j < |s| ==> s[i] != s[j]
  }

  /** `record in unique_records`: dicts compare by their items, whatever the order of their keys. */
  predicate Seen(recs: seq<Record>, us: seq<nat>, i: nat)
    requires i < |recs|
  {
    exists j :: 0 <= j < |us| && us[j] < |recs| && recs[us[j]].items == recs[i].items
  }

  /** The first loop over the first `n` records; a record kept without a `visit_id` raises KeyError. */
  function Dedupe(recs: seq<Record>, n: nat): (r: Result<Dedup>)
    requires n <= |recs|
    ensures r.Err? ==> r.error == "KeyError"
    ensures r.Ok? ==> Increasing(r.value.unique)
    ensures r.Ok? ==> forall j :: 0 <= j < |r.value.unique| ==>
      r.value.unique[j] < n && Has(recs[r.value.unique[j]], "visit_id")
  {
    if n == 0 then Ok(Dedup([], []))
    else
      var before := Dedupe(recs, n - 1);
      if before.Err? then before
      else
        var d := before.value;
        var rec := recs[n - 1];
        if Seen(recs, d.unique, n - 1) then before
        else if !Has(rec, "visit_id") then Err("KeyError")
        else
          var id := rec.items["visit_id"];
          Ok(Dedup(d.unique + [n - 1], if id in d.sites then d.sites else d.sites + [id]))
  }

  /** `any(d['visit_id'] == record['visit_id'] for d in visits)`. */
  predicate AnyVisit(visits: seq<VisitRow>, id: Value) {
    exists k :: 0 <= k < |visits| && visits[k].visitId == id
  }

  /** The two lookups: by visit date, or by replicate number. */
  datatype Probe = OnDate(date: Value) | OnReplicate(nr: Value)

  predicate Hit(v: VisitRow, id: Value, p: Probe) {
    v.visitId == id && match p
      case OnDate(date) => v.visitDate == date
      case OnReplicate(nr) => v.replicateNr == nr
  }

  /** `list(filter(...))`: the rows that match, in the order they were fetched. */
  function Hits(visits: seq<VisitRow>, id: Value, p: Probe): (hs: seq<VisitRow>)
    ensures |hs| <= |visits|
    ensures forall v :: v in hs <==> v in visits && Hit(v, id, p)
  {
    if visits == [] then []
    else
      var v := visits[|visits| - 1];
      Hits(visits[..|visits| - 1], id, p) + (if Hit(v, id, p) then [v] else [])
  }

  /** The lookup a record of a known site gets: by date if it has one, by replicate number if not. */
  function Matched(rec: Record, visits: seq<VisitRow>): Record
    requires Has(rec, "visit_id")
  {
    var id := rec.items["visit_id"];
    if Has(rec, "visit_date") then
      Put(rec, "found", Int(|Hits(visits, id, OnDate(rec.items["visit_date"]))|))
    else if Has(rec, "replicate_nr") then
      var found := Hits(visits, id, OnReplicate(rec.items["replicate_nr"]));
      var counted := Put(rec, "found", Int(|found|));
      if |found| > 0 then Put(counted, "visit_date", found[0].visitDate) else counted
    else rec
  }

  /** A record after the second loop: looked up when its site is known, told `found = 0` when not. */
  function Resolve(rec: Record, visits: seq<VisitRow>): Record
    requires Has(rec, "visit_id")
  {
    if AnyVisit(visits, rec.items["visit_id"]) then Matched(rec, visits) else Put(rec, "found", Int(0))
  }

  predicate KeptIndices(recs: seq<Record>, us: seq<nat>) {
    forall j :: 0 <= j < |us| ==> us[j] < |recs| && Has(recs[us[j]], "visit_id")
  }

  /** The records kept, each after its lookup, in the order of the second loop. */
  function Resolutions(recs: seq<Record>, us: seq<nat>, visits: seq<VisitRow>): (rs: seq<Record>)
    requires KeptIndices(recs, us)
    ensures |rs| == |us|
  {
    seq(|us|, j requires 0 <= j < |us| => Resolve(recs[us[j]], visits))
  }

  /** For each record kept, whether a fetched row names its site. */
  function Known(recs: seq<Record>, us: seq<nat>, visits: seq<VisitRow>): (ks: seq<bool>)
    requires KeptIndices(recs, us)
    ensures |ks| == |us|
  {
    seq(|us|, j requires 0 <= j < |us| => AnyVisit(visits, recs[us[j]].items["visit_id"]))
  }

  predicate Identified(rs: seq<Record>) {
    forall j :: 0 <= j < |rs| ==> Has(rs[j], "visit_id")
  }

  /** The inserts for a record after its lookup; the sample insert raises KeyError when the record has no `sample_nr`. */
  function Inserts(rec: Record, known: bool): Result<seq<Statement>>
    requires Has(rec, "visit_id")
  {
    if !known || !Has(rec, "visit_date") then Ok([])
    else if !Has(rec, "sample_nr") then Err("KeyError")
    else
      var id := rec.items["visit_id"];
      var date := rec.items["visit_date"];
      Ok([VisitInsert(id, date), SampleInsert(id, date, rec.items["sample_nr"])])
  }

  /** The inserts of the second loop over its first `k` records, or the first exception. */
  function Statements(rs: seq<Record>, ks: seq<bool>, k: nat): Result<seq<Statement>>
    requires Identified(rs) && |ks| == |rs| && k <= |rs|
  {
    if k == 0 then Ok([])
    else
      var before := Statements(rs, ks, k - 1);
      if before.Err? then before
      else
        var ins := Inserts(rs[k - 1], ks[k - 1]);
        if ins.Err? then Err(ins.error) else Ok(before.value + ins.value)
  }

  /** The records after the first `k` kept ones have been through the second loop. */
  function ResolvedState(recs: seq<Record>, us: seq<nat>, k: nat, visits: seq<VisitRow>): (s: seq<Record>)
    requires KeptIndices(recs, us) && k <= |us|
    ensures |s| == |recs|
  {
    seq(|recs|, i requires 0 <= i < |recs| => if i in us[..k] then Resolve(recs[i], visits) else recs[i])
  }

  /** One more record through the second loop; kept indices are distinct, so it is still as it was. */
  lemma ResolvedStep(recs: seq<Record>, us: seq<nat>, k: nat, visits: seq<VisitRow>)
    requires KeptIndices(recs, us) && Increasing(us) && k < |us|
    ensures ResolvedState(recs, us, k, visits)[us[k]] == recs[us[k]]
    ensures ResolvedState(recs, us, k, visits)[us[k] := Resolve(recs[us[k]], visits)] == ResolvedState(recs, us, k + 1, visits)
  {
    assert us[..k + 1] == us[..k] + [us[k]];
    assert us[k] !in us[..k];
  }

  // ---------------------------------------------------------------------
  // Deduplication

  /** The deduplication raises exactly when some record has no `visit_id`. */
  lemma {:induction false} DedupeRaises(recs: seq<Record>, n: nat)
    requires n <= |recs|
    ensures Dedupe(recs, n).Err? <==> exists i :: 0 <= i < n && !Has(recs[i], "visit_id")
  {
    if n > 0 {
      DedupeRaises(recs, n - 1);
      DedupeCases(recs, n);
      MissingSnoc(recs, n);
      var before := Dedupe(recs, n - 1);
      if before.Ok? && Seen(recs, before.value.unique, n - 1) {
        SeenKeyed(recs, before.value.unique, n - 1);
      }
    }
  }

  /** The three ways the first loop can go at record `n - 1`. */
  lemma DedupeCases(recs: seq<Record>, n: nat)
    requires 0 < n <= |recs|
    ensures var before := Dedupe(recs, n - 1);
      && (before.Err? ==> Dedupe(recs, n) == before)
      && (before.Ok? && Seen(recs, before.value.unique, n - 1) ==> Dedupe(recs, n) == before)
      && (before.Ok? && !Seen(recs, before.value.unique, n - 1) ==>
            (Dedupe(recs, n).Err? <==> !Has(recs[n - 1], "visit_id")))
  {
  }

  /** Some record of the first `n` lacks a `visit_id` when one of the first `n - 1` does or the last does. */
  lemma MissingSnoc(recs: seq<Record>, n: nat)
    requires 0 < n <= |recs|
    ensures (exists i :: 0 <= i < n && !Has(recs[i], "visit_id")) <==>
      (exists i :: 0 <= i < n - 1 && !Has(recs[i], "visit_id")) || !Has(recs[n - 1], "visit_id")
  {
  }

  /** A record equal to one kept has a `visit_id`, since every kept record does. */
  lemma SeenKeyed(recs: seq<Record>, us: seq<nat>, i: nat)
    requires i < |recs| && Seen(recs, us, i)
    requires forall j :: 0 <= j < |us| ==> us[j] < |recs| && Has(recs[us[j]], "visit_id")
    ensures Has(recs[i], "visit_id")
  {
  }

  /** Every record has an equal one among those kept. */
  lemma {:induction false} DedupeCovers(recs: seq<Record>, n: nat)
    requires n <= |recs| && Dedupe(recs, n).Ok?
    ensures forall i :: 0 <= i < n ==> Seen(recs, Dedupe(recs, n).value.unique, i)
  {
    if n > 0 {
      DedupeCovers(recs, n - 1);
      var us := Dedupe(recs, n - 1).value.unique;
      var last := Dedupe(recs, n).value.unique;
      assert last == us || last == us + [n - 1];
      SeenGrows(recs, us, last);
      assert Seen(recs, last, n - 1) by {
        if last != us {
          assert last[|us|] == n - 1;
        }
      }
      forall i | 0 <= i < n
        ensures Seen(recs, last, i)
      {
        if i < n - 1 {
          assert Seen(recs, us, i);
        }
      }
    }
  }

  lemma SeenGrows(recs: seq<Record>, us: seq<nat>, vs: seq<nat>)
    requires |us| <= |vs| && vs[..|us|] == us
    ensures forall i: nat :: i < |recs| && Seen(recs, us, i) ==> Seen(recs, vs, i)
  {
    forall i: nat | i < |recs| && Seen(recs, us, i)
      ensures Seen(recs, vs, i)
    {
      var j :| 0 <= j < |us| && us[j] < |recs| && recs[us[j]].items == recs[i].items;
      assert vs[j] == us[j];
    }
  }

  /** Each kept record is the first of the records equal to it. */
  lemma {:induction false} DedupeFirst(recs: seq<Record>, n: nat)
    requires n <= |recs| && Dedupe(recs, n).Ok?
    ensures var us := Dedupe(recs, n).value.unique;
      forall j, i :: 0 <= j < |us| && 0 <= i < us[j] ==> recs[i].items != recs[us[j]].items
  {
    if n > 0 {
      DedupeFirst(recs, n - 1);
      var us := Dedupe(recs, n - 1).value.unique;
      var last := Dedupe(recs, n).value.unique;
      if last != us {
        DedupeCovers(recs, n - 1);
        assert last == us + [n - 1];
        forall i | 0 <= i < n - 1
          ensures recs[i].items != recs[n - 1].items
        {
          assert Seen(recs, us, i);
        }
      }
    }
  }

  /** The `visit_id`s of the records kept, in order, repeats included. */
  function KeptIds(recs: seq<Record>, us: seq<nat>): seq<Value>
    requires KeptIndices(recs, us)
  {
    if us == [] then [] else KeptIds(recs, us[..|us| - 1]) + [recs[us[|us| - 1]].items["visit_id"]]
  }

  /** The sites are the distinct `visit_id`s of the records kept. */
  lemma {:induction false} DedupeSites(recs: seq<Record>, n: nat)
    requires n <= |recs| && Dedupe(recs, n).Ok?
    ensures var d := Dedupe(recs, n).value;
      Distinct(d.sites) && forall v :: v in d.sites <==> v in KeptIds(recs, d.unique)
  {
    if n > 0 {
      DedupeSites(recs, n - 1);
      var d := Dedupe(recs, n - 1).value;
      var e := Dedupe(recs, n).value;
      DedupeStep(recs, n);
      if e != d {
        var id := recs[n - 1].items["visit_id"];
        KeptIdsSnoc(recs, d.unique, n - 1);
        SitesSnoc(d.sites, KeptIds(recs, d.unique), id);
      }
    }
  }

  /** One more record of the first loop: skipped, or kept with its site added when new. */
  lemma DedupeStep(recs: seq<Record>, n: nat)
    requires 0 < n <= |recs| && Dedupe(recs, n).Ok?
    ensures Dedupe(recs, n - 1).Ok?
    ensures var d := Dedupe(recs, n - 1).value;
      || Dedupe(recs, n).value == d
      || (&& Has(recs[n - 1], "visit_id")
          && var id := recs[n - 1].items["visit_id"];
             Dedupe(recs, n).value == Dedup(d.unique + [n - 1], if id in d.sites then d.sites else d.sites + [id]))
  {
  }

  /** Keeping one more record adds its `visit_id` to the ids kept. */
  lemma KeptIdsSnoc(recs: seq<Record>, us: seq<nat>, i: nat)
    requires KeptIndices(recs, us) && i < |recs| && Has(recs[i], "visit_id")
    ensures KeptIndices(recs, us + [i])
    ensures KeptIds(recs, us + [i]) == KeptIds(recs, us) + [recs[i].items["visit_id"]]
  {
    assert (us + [i])[..|us|] == us;
    assert forall j :: 0 <= j < |us| ==> us[j] == (us + [i])[j];
  }

  /** `if id not in sites: sites.append(id)` keeps the sites the distinct ids seen. */
  lemma SitesSnoc(sites: seq<Value>, ids: seq<Value>, id: Value)
    requires Distinct(sites) && forall v :: v in sites <==> v in ids
    ensures var s := if id in sites then sites else sites + [id];
      Distinct(s) && forall v :: v in s <==> v in ids + [id]
  {
  }

  // ---------------------------------------------------------------------
  // Resolution

  /** The first row that matches: `found[0]`. */
  lemma {:induction false} FirstHit(visits: seq<VisitRow>, id: Value, p: Probe)
    requires |Hits(visits, id, p)| > 0
    ensures exists k :: 0 <= k < |visits| && Hits(visits, id, p)[0] == visits[k] && Hit(visits[k], id, p) && (forall m :: 0 <= m < k ==> !Hit(visits[m], id, p))
  {
    var init := visits[..|visits| - 1];
    if |Hits(init, id, p)| > 0 {
      FirstHit(init, id, p);
      var k :| 0 <= k < |init| && Hits(init, id, p)[0] == init[k] && Hit(init[k], id, p)
        && forall m :: 0 <= m < k ==> !Hit(init[m], id, p);
      assert visits[k] == init[k];
      assert forall m :: 0 <= m < k ==> visits[m] == init[m];
    } else {
      forall m | 0 <= m < |init|
        ensures !Hit(visits[m], id, p)
      {
        assert visits[m] == init[m] && init[m] in init;
      }
    }
  }

  /** Only `found` and `visit_date` can change, and a date the record had is kept. */
  lemma ResolveKeeps(rec: Record, visits: seq<VisitRow>, k: string)
    requires Has(rec, "visit_id")
    ensures k != "found" && k != "visit_date" ==> Get(Resolve(rec, visits), k) == Get(rec, k)
    ensures Has(rec, "visit_date") ==> Get(Resolve(rec, visits), "visit_date") == Get(rec, "visit_date")
  {
  }

  /**
   * What a record is told: `found = 0` when no row names its site; the
   * number of rows with its site and date when it has a date; the number
   * with its site and replicate number when it has one of those instead,
   * together with the date of the first of them; nothing otherwise.
   */
  lemma ResolveFound(rec: Record, visits: seq<VisitRow>)
    requires Has(rec, "visit_id")
    ensures var id := rec.items["visit_id"]; var r := Resolve(rec, visits);
      && (!AnyVisit(visits, id) ==> Get(r, "found") == Some(Int(0)) && Get(r, "visit_date") == Get(rec, "visit_date"))
      && (AnyVisit(visits, id) && Has(rec, "visit_date") ==>
            var p := OnDate(rec.items["visit_date"]);
            && Get(r, "found") == Some(Int(|Hits(visits, id, p)|))
            && (|Hits(visits, id, p)| > 0 <==> exists k :: 0 <= k < |visits| && Hit(visits[k], id, p)))
      && (AnyVisit(visits, id) && !Has(rec, "visit_date") && Has(rec, "replicate_nr") ==>
            var p := OnReplicate(rec.items["replicate_nr"]);
            && Get(r, "found") == Some(Int(|Hits(visits, id, p)|))
            && (|Hits(visits, id, p)| > 0 <==> exists k :: 0 <= k < |visits| && Hit(visits[k], id, p))
            && (Has(r, "visit_date") <==> |Hits(visits, id, p)| > 0))
      && (AnyVisit(visits, id) && !Has(rec, "visit_date") && !Has(rec, "replicate_nr") ==> r == rec)
  {
    var id := rec.items["visit_id"];
    if AnyVisit(visits, id) && Has(rec, "visit_date") {
      HitsAny(visits, id, OnDate(rec.items["visit_date"]));
    } else if AnyVisit(visits, id) && Has(rec, "replicate_nr") {
      HitsAny(visits, id, OnReplicate(rec.items["replicate_nr"]));
    }
  }

  lemma HitsAny(visits: seq<VisitRow>, id: Value, p: Probe)
    ensures |Hits(visits, id, p)| > 0 <==> exists k :: 0 <= k < |visits| && Hit(visits[k], id, p)
  {
    var hs := Hits(visits, id, p);
    if |hs| > 0 {
      assert hs[0] in hs;
    }
    if k :| 0 <= k < |visits| && Hit(visits[k], id, p) {
      assert visits[k] in visits;
    }
  }

  /** A record found by replicate number takes the date of the first matching row. */
  lemma BackfilledDate(rec: Record, visits: seq<VisitRow>)
    requires Has(rec, "visit_id") && !Has(rec, "visit_date") && Has(rec, "replicate_nr")
    requires var r := Resolve(rec, visits); Has(r, "visit_date")
    ensures var id := rec.items["visit_id"]; var p := OnReplicate(rec.items["replicate_nr"]);
      exists k :: 0 <= k < |visits| && Hit(visits[k], id, p) && (forall m :: 0 <= m < k ==> !Hit(visits[m], id, p))
        && Resolve(rec, visits).items["visit_date"] == visits[k].visitDate
  {
    FirstHit(visits, rec.items["visit_id"], OnReplicate(rec.items["replicate_nr"]));
  }

  // ---------------------------------------------------------------------
  // Inserts

  /** The records the second loop inserts for, among its first `k`: those of a known site with a date. */
  function Inserted(rs: seq<Record>, ks: seq<bool>, k: nat): seq<Record>
    requires |ks| == |rs| && k <= |rs|
  {
    if k == 0 then []
    else Inserted(rs, ks, k - 1) + (if ks[k - 1] && Has(rs[k - 1], "visit_date") then [rs[k - 1]] else [])
  }

  /** Every record keeps its `visit_id` through the lookup. */
  lemma ResolutionsIdentified(recs: seq<Record>, us: seq<nat>, visits: seq<VisitRow>)
    requires KeptIndices(recs, us)
    ensures Identified(Resolutions(recs, us, visits))
  {
    forall j | 0 <= j < |us|
      ensures Has(Resolutions(recs, us, visits)[j], "visit_id")
    {
      ResolveKeeps(recs[us[j]], visits, "visit_id");
    }
  }

  /**
   * Two inserts, a visit and then a sample, for each record of a known
   * site that has a date once resolved, whether or not a row matched its
   * date, and none for any other record.
   */
  lemma {:induction false} StatementsPaired(rs: seq<Record>, ks: seq<bool>, k: nat)
    requires Identified(rs) && |ks| == |rs| && k <= |rs|
    requires Statements(rs, ks, k).Ok?
    ensures var ss := Statements(rs, ks, k).value; var ins := Inserted(rs, ks, k);
      && |ss| == 2 * |ins|
      && forall m :: 0 <= m < |ins| ==>
           && Has(ins[m], "visit_id") && Has(ins[m], "visit_date") && Has(ins[m], "sample_nr")
           && ss[2 * m] == VisitInsert(ins[m].items["visit_id"], ins[m].items["visit_date"])
           && ss[2 * m + 1] == SampleInsert(ins[m].items["visit_id"], ins[m].items["visit_date"], ins[m].items["sample_nr"])
  {
    if k > 0 {
      StatementsPaired(rs, ks, k - 1);
      var before := Inserted(rs, ks, k - 1);
      var all := Inserted(rs, ks, k);
      assert forall m :: 0 <= m < |before| ==> all[m] == before[m];
    }
  }

  /** The second loop raises exactly when a record it inserts for has no `sample_nr`. */
  lemma {:induction false} StatementsRaise(rs: seq<Record>, ks: seq<bool>, k: nat)
    requires Identified(rs) && |ks| == |rs| && k <= |rs|
    ensures Statements(rs, ks, k).Err? <==>
      exists m :: 0 <= m < |Inserted(rs, ks, k)| && !Has(Inserted(rs, ks, k)[m], "sample_nr")
  {
    if k > 0 {
      StatementsRaise(rs, ks, k - 1);
      var before := Inserted(rs, ks, k - 1);
      var all := Inserted(rs, ks, k);
      assert forall m :: 0 <= m < |before| ==> all[m] == before[m];
      if Statements(rs, ks, k - 1).Err? {
        var m :| 0 <= m < |before| && !Has(before[m], "sample_nr");
        assert !Has(all[m], "sample_nr");
      } else if ks[k - 1] && Has(rs[k - 1], "visit_date") {
        assert all == before + [rs[k - 1]];
        if !Has(rs[k - 1], "sample_nr") {
          assert !Has(all[|before|], "sample_nr");
        }
      } else {
        assert all == before;
      }
    }
  }

  lemma StatementsStep(rs: seq<Record>, ks: seq<bool>, k: nat)
    requires Identified(rs) && |ks| == |rs| && k < |rs|
    requires Statements(rs, ks, k).Ok?
    ensures Inserts(rs[k], ks[k]).Err? ==> Statements(rs, ks, k + 1) == Err(Inserts(rs[k], ks[k]).error)
    ensures Inserts(rs[k], ks[k]).Ok? ==> Statements(rs, ks, k + 1) == Ok(Statements(rs, ks, k).value + Inserts(rs[k], ks[k]).value)
  {
  }

  lemma {:induction false} StatementsStop(rs: seq<Record>, ks: seq<bool>, k: nat, n: nat)
    requires Identified(rs) && |ks| == |rs| && k <= n <= |rs|
    requires Statements(rs, ks, k).Err?
    ensures Statements(rs, ks, n) == Statements(rs, ks, k)
  {
    if k < n {
      StatementsStop(rs, ks, k, n - 1);
    }
  }

  // ---------------------------------------------------------------------
  // The function as written

  /**
   * `validate_and_update_site_records`. A KeyError in the deduplication
   * leaves the records untouched; one in the second loop leaves the
   * records before it, and the one it raised on, resolved.
   */
  method ValidateAndUpdate(records: array<Record>, visits: seq<VisitRow>, rowcount: nat -> int)
    returns (r: Result<Outcome>)
    modifies records
    ensures Dedupe(old(records[..]), records.Length).Err? ==> r == Err("KeyError") && records[..] == old(records[..])
    ensures Dedupe(old(records[..]), records.Length).Ok? ==>
      var d := Dedupe(old(records[..]), records.Length).value;
      var rs := Resolutions(old(records[..]), d.unique, visits);
      var ks := Known(old(records[..]), d.unique, visits);
      Identified(rs) && var ss := Statements(rs, ks, |rs|);
      && (r.Ok? <==> ss.Ok?)
      && (r.Ok? ==> records[..] == ResolvedState(old(records[..]), d.unique, |d.unique|, visits))
      && (r.Ok? ==> r.value == Outcome(d.sites, ss.value, BatchUpsert.Updated(rowcount, |ss.value|)))
      && (r.Err? ==> r == Err(ss.error))
      && (r.Err? ==> (exists k :: 0 < k <= |rs| && Statements(rs, ks, k - 1).Ok? && Statements(rs, ks, k).Err? &&
                        records[..] == ResolvedState(old(records[..]), d.unique, k, visits)))
  {
    ghost var recs := records[..];
    var dedup := DedupeRecords(records);
    if dedup.Err? {
      return Err(dedup.error);
    }
    var unique := dedup.value.unique;
    ghost var rs := Resolutions(recs, unique, visits);
    ghost var ks := Known(recs, unique, visits);
    ResolutionsIdentified(recs, unique, visits);
    var statements: seq<Statement> := [];
    var updatedRows: nat := 0;
    for j := 0 to |unique|
      invariant records[..] == ResolvedState(recs, unique, j, visits)
      invariant Statements(rs, ks, j) == Ok(statements)
      invariant updatedRows == BatchUpsert.Updated(rowcount, |statements|)
    {
      var u := unique[j];
      ResolvedStep(recs, unique, j, visits);
      var record := records[u];
      assert record == recs[u];
      var known := AnyVisit(visits, record.items["visit_id"]);
      var resolved := ResolveRecord(record, visits);
      assert resolved == rs[j] && known == ks[j];
      records[u] := resolved;
      var ins := Insert(resolved, known, rowcount, |statements|, updatedRows, rs, ks, j, statements);
      if ins.Err? {
        StatementsStop(rs, ks, j + 1, |unique|);
        return Err(ins.error);
      }
      statements := statements + ins.value.0;
      updatedRows := ins.value.1;
    }
    return Ok(Outcome(dedup.value.sites, statements, updatedRows));
  }

  /** The first loop: the records kept and the sites, without changing any record. */
  method DedupeRecords(records: array<Record>) returns (r: Result<Dedup>)
    ensures r == Dedupe(records[..], records.Length)
  {
    var unique: seq<nat> := [];
    var sites: seq<Value> := [];
    for i := 0 to records.Length
      invariant Dedupe(records[..], i) == Ok(Dedup(unique, sites))
    {
      var record := records[i];
      if !Seen(records[..], unique, i) {
        if !Has(record, "visit_id") {
          DedupeStop(records[..], i + 1, records.Length);
          return Err("KeyError");
        }
        unique := unique + [i];
        if record.items["visit_id"] !in sites {
          sites := sites + [record.items["visit_id"]];
        }
      }
    }
    return Ok(Dedup(unique, sites));
  }

  /** The inserts for the `k`-th record of the second loop, after the `statements` of the records before it. */
  method Insert(record: Record, known: bool, rowcount: nat -> int, n: nat, updated: nat, ghost rs: seq<Record>, ghost ks: seq<bool>, ghost k: nat, ghost statements: seq<Statement>)
    returns (r: Result<(seq<Statement>, nat)>)
    requires Identified(rs) && |ks| == |rs| && k < |rs|
    requires record == rs[k] && known == ks[k] && Statements(rs, ks, k) == Ok(statements) && n == |statements|
    requires updated == BatchUpsert.Updated(rowcount, n)
    ensures r.Err? ==> Statements(rs, ks, k + 1) == Err(r.error)
    ensures r.Ok? ==> Statements(rs, ks, k + 1) == Ok(statements + r.value.0)
    ensures r.Ok? ==> r.value.1 == BatchUpsert.Updated(rowcount, |statements + r.value.0|)
  {
    StatementsStep(rs, ks, k);
    if known && Has(record, "visit_date") {
      var id := record.items["visit_id"];
      var added := updated;
      var count := rowcount(n);
      if count > 0 {
        added := added + count;
      }
      if !Has(record, "sample_nr") {
        return Err("KeyError");
      }
      count := rowcount(n + 1);
      if count > 0 {
        added := added + count;
      }
      return Ok(([VisitInsert(id, record.items["visit_date"]), SampleInsert(id, record.items["visit_date"], record.items["sample_nr"])], added));
    }
    return Ok(([], updated));
  }

  lemma {:induction false} DedupeStop(recs: seq<Record>, k: nat, n: nat)
    requires k <= n <= |recs| && Dedupe(recs, k).Err?
    ensures Dedupe(recs, n) == Dedupe(recs, k)
  {
    if k < n {
      DedupeStop(recs, k, n - 1);
    }
  }

  /** The lookup of the second loop for one record. */
  method ResolveRecord(record: Record, visits: seq<VisitRow>) returns (r: Record)
    requires Has(record, "visit_id")
    ensures r == Resolve(record, visits)
  {
    r := record;
    var id := record.items["visit_id"];
    if AnyVisit(visits, id) {
      if Has(r, "visit_date") {
        var found := Hits(visits, id, OnDate(r.items["visit_date"]));
        r := Put(r, "found", Int(|found|));
      } else if Has(r, "replicate_nr") {
        var found := Hits(visits, id, OnReplicate(r.items["replicate_nr"]));
        r := Put(r, "found", Int(|found|));
        if |found| > 0 {
          r := Put(r, "visit_date", found[0].visitDate);
        }
      }
    } else {
      r := Put(r, "found", Int(0));
    }
  }
}
