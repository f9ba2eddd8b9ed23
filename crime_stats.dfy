/** The crime-statistics transform of the open-data page (src/pages/ApiData.tsx):
    each result set of police records is grouped by indicator and then by
    year, every indicator gets its latest year, latest value and the change
    against the year before, and the result sets are filed under their type.
    Also the split of the geocoder's context string into department code and
    department name. */
module CrimeStats {
  import opened Common
  import opened Strings
  import opened Dicts

  /** officialUpdate: the date written into every entry's metadata. */
  const OfficialUpdate: string := "2025-07-10T00:00:00Z"

  const NoPeriod: string := "Non disponible"

  /** One record of a result set; `annee` and `nombre` as the text they are read as. */
  datatype CrimeRecord = CrimeRecord(indicateur: string, annee: string, nombre: string)

  /** A metadata value: the known fields are texts or numbers. */
  datatype MetaValue = MText(text: string) | MNum(number: int)

  /** A result set: its `type` (here `kind`), its records if any, its metadata if any. */
  datatype ResultSet = ResultSet(kind: string, data: Option<seq<CrimeRecord>>, metadata: Option<Dict<MetaValue>>)

  /** `evolution` is a percentage, or `None` for `null`. */
  datatype CrimeStat = CrimeStat(indicateur: string, years: Dict<int>, lastYear: string, lastValue: int, evolution: Option<real>)

  datatype CrimeData = CrimeData(stats: seq<CrimeStat>, total: nat, metadata: Dict<MetaValue>)

  /** `parseInt(nombre) || 0`: a text that is not a number counts as 0. */
  function CountOf(nombre: string): int
  {
    match ParseInt(nombre)
    case Some(n) => n
    case None => 0
  }

  // ---------------------------------------------------------------------
  // Grouping by indicator and year

  /** groupedData after the records have been visited in order: the first
      record of an indicator creates its entry, and each record sets the
      value of its year, replacing an earlier one. */
  function Group(records: seq<CrimeRecord>): Dict<Dict<int>>
    decreases |records|
  {
    if records == [] then []
    else
      var g := Group(records[..|records| - 1]);
      var item := records[|records| - 1];
      Put(g, item.indicateur, Put(Get(g, item.indicateur).GetOr([]), item.annee, CountOf(item.nombre)))
  }

  /** One entry per indicator, each with at least one year and one value per year. */
  ghost predicate WellGrouped(g: Dict<Dict<int>>)
  {
    DistinctKeys(g) && forall i :: 0 <= i < |g| ==> |g[i].1| >= 1 && DistinctKeys(g[i].1)
  }

  lemma {:induction false} GroupWellGrouped(records: seq<CrimeRecord>)
    ensures WellGrouped(Group(records))
    decreases |records|
  {
    if records != [] {
      var g := Group(records[..|records| - 1]);
      GroupWellGrouped(records[..|records| - 1]);
      var item := records[|records| - 1];
      var old_years := Get(g, item.indicateur).GetOr([]);
      assert DistinctKeys(old_years) by {
        if Get(g, item.indicateur).Some? {
          var i :| 0 <= i < |g| && g[i] == (item.indicateur, old_years);
        }
      }
      var years := Put(old_years, item.annee, CountOf(item.nombre));
      PutKeepsDistinct(old_years, item.annee, CountOf(item.nombre));
      assert |years| >= 1 by {
        assert item.annee in Keys(years);
      }
      PutKeepsDistinct(g, item.indicateur, years);
      PutEntries(g, item.indicateur, years);
    }
  }

  /** The indicators of the records, in record order. */
  function Indicators(records: seq<CrimeRecord>): (r: seq<string>)
    ensures forall ind :: ind in r <==> exists i :: 0 <= i < |records| && records[i].indicateur == ind
    decreases |records|
  {
    if records == [] then []
    else
      var init := records[..|records| - 1];
      assert forall i :: 0 <= i < |init| ==> init[i] == records[i];
      Indicators(init) + [records[|records| - 1].indicateur]
  }

  /** The (indicator, year) pairs of the records, in record order. */
  function Cells(records: seq<CrimeRecord>): (r: seq<(string, string)>)
    ensures forall ind, year :: (ind, year) in r <==>
      exists i :: 0 <= i < |records| && records[i].indicateur == ind && records[i].annee == year
    decreases |records|
  {
    if records == [] then []
    else
      var init := records[..|records| - 1];
      assert forall i :: 0 <= i < |init| ==> init[i] == records[i];
      Cells(init) + [(records[|records| - 1].indicateur, records[|records| - 1].annee)]
  }

  /** The indicators of the groups are exactly those of the records. */
  lemma {:induction false} GroupIndicators(records: seq<CrimeRecord>)
    ensures forall ind :: ind in Keys(Group(records)) <==> ind in Indicators(records)
    decreases |records|
  {
    if records != [] {
      GroupIndicators(records[..|records| - 1]);
    }
  }

  /** The texts of `s` in order of first appearance, each once. */
  function FirstOccurrences(s: seq<string>): (r: seq<string>)
    ensures forall x :: x in r <==> x in s
    decreases |s|
  {
    if s == [] then []
    else
      var d := FirstOccurrences(s[..|s| - 1]);
      assert forall x :: x in s <==> x in s[..|s| - 1] || x == s[|s| - 1];
      if s[|s| - 1] in d then d else d + [s[|s| - 1]]
  }

  /** The indicators of the groups come in order of first appearance among
      the records. */
  lemma {:induction false} GroupOrder(records: seq<CrimeRecord>)
    ensures Keys(Group(records)) == FirstOccurrences(Indicators(records))
    decreases |records|
  {
    if records != [] {
      var init := records[..|records| - 1];
      var inds := Indicators(records);
      assert inds[..|inds| - 1] == Indicators(init) && inds[|inds| - 1] == records[|records| - 1].indicateur;
      GroupOrder(init);
    }
  }

  /** The value under an indicator and a year is that of the last record for them. */
  lemma {:induction false} GroupValue(records: seq<CrimeRecord>, j: nat)
    requires j < |records|
    requires forall l :: j < l < |records| ==>
      records[l].indicateur != records[j].indicateur || records[l].annee != records[j].annee
    ensures Get(Group(records), records[j].indicateur).Some?
    ensures Get(Get(Group(records), records[j].indicateur).value, records[j].annee) == Some(CountOf(records[j].nombre))
    decreases |records|
  {
    if j < |records| - 1 {
      GroupValue(records[..|records| - 1], j);
    }
  }

  /** A year appears under an indicator exactly when a record has both. */
  lemma {:induction false} GroupYears(records: seq<CrimeRecord>, ind: string, year: string)
    ensures (Get(Group(records), ind).Some? && year in Keys(Get(Group(records), ind).value)) <==>
      (ind, year) in Cells(records)
    decreases |records|
  {
    if records != [] {
      var init := records[..|records| - 1];
      var item := records[|records| - 1];
      GroupYears(init, ind, year);
      HasYearAfterPut(Group(init), item.indicateur, item.annee, CountOf(item.nombre), ind, year);
      assert Cells(records) == Cells(init) + [(item.indicateur, item.annee)];
    }
  }

  predicate HasYear(g: Dict<Dict<int>>, ind: string, year: string)
  {
    Get(g, ind).Some? && year in Keys(Get(g, ind).value)
  }

  /** Setting one value adds its indicator and year and removes nothing. */
  lemma HasYearAfterPut(g: Dict<Dict<int>>, indicateur: string, annee: string, v: int, ind: string, year: string)
    ensures HasYear(Put(g, indicateur, Put(Get(g, indicateur).GetOr([]), annee, v)), ind, year) <==>
      HasYear(g, ind, year) || (ind == indicateur && year == annee)
  {
    var years := Put(Get(g, indicateur).GetOr([]), annee, v);
    var g' := Put(g, indicateur, years);
    if ind == indicateur {
      assert Get(g', ind) == Some(years);
      assert Keys(years) == if annee in Keys(Get(g, indicateur).GetOr([])) then Keys(Get(g, indicateur).GetOr([])) else Keys(Get(g, indicateur).GetOr([])) + [annee];
    } else {
      assert Get(g', ind) == Get(g, ind);
    }
  }

  // ---------------------------------------------------------------------
  // The statistic of one indicator

  /** `s` without `x`. */
  function Without(s: seq<string>, x: string): (r: seq<string>)
    ensures forall y :: y in r <==> y in s && y != x
    decreases |s|
  {
    if s == [] then [] else (if s[0] == x then [] else [s[0]]) + Without(s[1..], x)
  }

  /** lastYear: the last of the year keys once sorted. */
  function LastYear(years: Dict<int>): (y: string)
    requires |years| >= 1
    ensures y in Keys(years)
    ensures forall k :: k in Keys(years) ==> StrLe(k, y)
  {
    GreatestIsUpperBound(Keys(years));
    Greatest(Keys(years))
  }

  /** prevYear: the one before it once sorted, `None` (`undefined`) when the
      indicator has a single year. */
  function PrevYear(years: Dict<int>): (p: Option<string>)
    requires |years| >= 1
    ensures p.None? <==> forall k :: k in Keys(years) ==> k == LastYear(years)
    ensures p.Some? ==> p.value in Keys(years) && p.value != LastYear(years)
    ensures p.Some? ==> forall k :: k in Keys(years) && k != LastYear(years) ==> StrLe(k, p.value)
  {
    var rest := Without(Keys(years), LastYear(years));
    if |rest| >= 1 then
      GreatestIsUpperBound(rest);
      assert rest[0] in rest;
      assert rest[0] in Keys(years) && rest[0] != LastYear(years);
      Some(Greatest(rest))
    else
      assert forall k :: k in Keys(years) ==> k !in rest;
      None
  }

  /** `((lastValue - prevValue) / prevValue) * 100`, on exact rationals. */
  function Evolution(lastValue: int, prevValue: int): (e: real)
    requires prevValue > 0
    ensures e * (prevValue as real) == ((lastValue - prevValue) as real) * 100.0
  {
    ((lastValue - prevValue) as real / prevValue as real) * 100.0
  }

  /** The property name an `undefined` key is converted to. */
  const UndefinedKey: string := "undefined"

  /** `years[year] || 0`: an `undefined` year reads the key "undefined", and
      an absent key gives 0. */
  function ValueOf(years: Dict<int>, year: Option<string>): int
  {
    Get(years, if year.Some? then year.value else UndefinedKey).GetOr(0)
  }

  function StatOf(indicateur: string, years: Dict<int>): (st: CrimeStat)
    requires |years| >= 1
  {
    var lastValue := ValueOf(years, Some(LastYear(years)));
    var prevValue := ValueOf(years, PrevYear(years));
    CrimeStat(indicateur, years, LastYear(years), lastValue,
      if prevValue > 0 then Some(Evolution(lastValue, prevValue)) else None)
  }

  /** The statistic of an indicator: its latest year is its greatest year key
      and holds the latest value; the change is present exactly when the year
      before has a positive value, and then is the percentage change to the
      latest value (see Evolution). */
  lemma StatMeaning(indicateur: string, years: Dict<int>)
    requires |years| >= 1
    ensures var st := StatOf(indicateur, years);
      st.indicateur == indicateur && st.years == years
      && st.lastYear in Keys(years) && (forall k :: k in Keys(years) ==> StrLe(k, st.lastYear))
      && Get(years, st.lastYear) == Some(st.lastValue)
      && (st.evolution.Some? <==> ValueOf(years, PrevYear(years)) > 0)
      && (st.evolution.Some? ==> st.evolution.value == Evolution(st.lastValue, ValueOf(years, PrevYear(years))))
  {
    var st := StatOf(indicateur, years);
    var last := LastYear(years);
    var prevValue := ValueOf(years, PrevYear(years));
    assert st.lastYear == last;
    assert Get(years, last).Some?;
    assert st.lastValue == Get(years, last).value;
    if prevValue > 0 {
      assert st.evolution == Some(Evolution(st.lastValue, prevValue));
    } else {
      assert st.evolution == None;
    }
  }

  /** A single year other than "undefined" means no change is reported. */
  lemma SingleYearNoEvolution(indicateur: string, year: string, value: int)
    requires year != UndefinedKey
    ensures StatOf(indicateur, [(year, value)]).evolution.None?
    ensures StatOf(indicateur, [(year, value)]).lastValue == value
  {
    var years: Dict<int> := [(year, value)];
    assert Keys(years) == [year];
    assert PrevYear(years).None?;
  }

  /** A single year keyed "undefined" is also read as the year before it,
      so a positive value reports a change of 0. */
  lemma SingleUndefinedYear(indicateur: string, value: int)
    ensures StatOf(indicateur, [(UndefinedKey, value)]).lastValue == value
    ensures StatOf(indicateur, [(UndefinedKey, value)]).evolution == if value > 0 then Some(0.0) else None
  {
    var years: Dict<int> := [(UndefinedKey, value)];
    assert Keys(years) == [UndefinedKey];
    assert LastYear(years) == UndefinedKey && PrevYear(years).None?;
    assert ValueOf(years, PrevYear(years)) == value && ValueOf(years, Some(UndefinedKey)) == value;
    if value > 0 {
      NoChangeNoEvolution(value);
    }
  }

  /** Equal values give a change of 0. */
  lemma NoChangeNoEvolution(value: int)
    requires value > 0
    ensures Evolution(value, value) == 0.0
  {
    assert (value - value) as real == 0.0;
  }

  /** statsWithEvolution: one statistic per group, in the order of the groups. */
  function Stats(g: Dict<Dict<int>>): (r: seq<CrimeStat>)
    requires forall i :: 0 <= i < |g| ==> |g[i].1| >= 1
    ensures |r| == |g|
  {
    seq(|g|, i requires 0 <= i < |g| => StatOf(g[i].0, g[i].1))
  }

  // ---------------------------------------------------------------------
  // The years of a result set

  /** Adding each of `ys` to the set `acc`, which keeps first-insertion order. */
  function AddYears(acc: seq<string>, ys: seq<string>): seq<string>
    decreases |ys|
  {
    if ys == [] then acc
    else
      var a := AddYears(acc, ys[..|ys| - 1]);
      var y := ys[|ys| - 1];
      if y in a then a else a + [y]
  }

  /** allYears: the year keys of all the groups. */
  function AllYears(g: Dict<Dict<int>>): seq<string>
    decreases |g|
  {
    if g == [] then [] else AddYears(AllYears(g[..|g| - 1]), Keys(g[|g| - 1].1))
  }

  ghost predicate Distinct(s: seq<string>)
  {
    forall i, j :: 0 <= i < j < |s| ==> s[i] != s[j]
  }

  lemma {:induction false} AddYearsMeaning(acc: seq<string>, ys: seq<string>)
    requires Distinct(acc)
    ensures Distinct(AddYears(acc, ys))
    ensures forall y :: y in AddYears(acc, ys) <==> y in acc || y in ys
    decreases |ys|
  {
    if ys != [] {
      var init := ys[..|ys| - 1];
      AddYearsMeaning(acc, init);
      assert ys == init + [ys[|ys| - 1]];
    }
  }

  /** allYears holds each year of any group exactly once. */
  lemma {:induction false} AllYearsMeaning(g: Dict<Dict<int>>)
    ensures Distinct(AllYears(g))
    ensures forall y :: y in AllYears(g) <==> exists i :: 0 <= i < |g| && y in Keys(g[i].1)
    decreases |g|
  {
    if g != [] {
      var init := g[..|g| - 1];
      AllYearsMeaning(init);
      AddYearsMeaning(AllYears(init), Keys(g[|g| - 1].1));
      assert forall i :: 0 <= i < |init| ==> init[i] == g[i];
    }
  }

  /** The years of the records, in record order. */
  function Years(records: seq<CrimeRecord>): (r: seq<string>)
    ensures forall year :: year in r <==> exists i :: 0 <= i < |records| && records[i].annee == year
    decreases |records|
  {
    if records == [] then []
    else
      var init := records[..|records| - 1];
      assert forall i :: 0 <= i < |init| ==> init[i] == records[i];
      Years(init) + [records[|records| - 1].annee]
  }

  /** The years of the groups of a result set are the years of its records. */
  lemma AllYearsOfRecords(records: seq<CrimeRecord>, year: string)
    ensures year in AllYears(Group(records)) <==> year in Years(records)
  {
    AllYearsMeaning(Group(records));
    if year in AllYears(Group(records)) {
      GroupedYearIsRecorded(records, year);
    }
    if year in Years(records) {
      RecordedYearIsGrouped(records, year);
    }
  }

  lemma GroupedYearIsRecorded(records: seq<CrimeRecord>, year: string)
    requires exists k :: 0 <= k < |Group(records)| && year in Keys(Group(records)[k].1)
    ensures year in Years(records)
  {
    var g := Group(records);
    var k :| 0 <= k < |g| && year in Keys(g[k].1);
    GroupWellGrouped(records);
    GetOfDistinct(g, k);
    GroupYears(records, g[k].0, year);
    var i :| 0 <= i < |records| && records[i].indicateur == g[k].0 && records[i].annee == year;
  }

  lemma RecordedYearIsGrouped(records: seq<CrimeRecord>, year: string)
    requires year in Years(records)
    ensures exists k :: 0 <= k < |Group(records)| && year in Keys(Group(records)[k].1)
  {
    var g := Group(records);
    var i :| 0 <= i < |records| && records[i].annee == year;
    var ind := records[i].indicateur;
    assert (ind, year) in Cells(records);
    GroupYears(records, ind, year);
    EntryOfGet(g, ind);
  }

  /** data_period: first and last year once sorted, or "Non disponible". */
  function Period(allYears: seq<string>): string
  {
    if |allYears| > 0 then Least(allYears) + " - " + Greatest(allYears) else NoPeriod
  }

  /** `{ ...metadata, last_updated, data_period, years_available }`. */
  function MetadataOf(metadata: Option<Dict<MetaValue>>, allYears: seq<string>): Dict<MetaValue>
  {
    PutAll(PutAll([], metadata.GetOr([])), FixedMetadata(allYears))
  }

  function FixedMetadata(allYears: seq<string>): Dict<MetaValue>
  {
    [("last_updated", MText(OfficialUpdate)), ("data_period", MText(Period(allYears))), ("years_available", MNum(|allYears|))]
  }

  /** The three computed fields replace whatever the result set's metadata
      said; every other field is passed through. */
  lemma MetadataFields(metadata: Option<Dict<MetaValue>>, allYears: seq<string>, key: string)
    ensures Get(MetadataOf(metadata, allYears), "last_updated") == Some(MText(OfficialUpdate))
    ensures Get(MetadataOf(metadata, allYears), "data_period") == Some(MText(Period(allYears)))
    ensures Get(MetadataOf(metadata, allYears), "years_available") == Some(MNum(|allYears|))
    ensures key != "last_updated" && key != "data_period" && key != "years_available" ==>
      Get(MetadataOf(metadata, allYears), key) == Get(PutAll([], metadata.GetOr([])), key)
  {
    var base := PutAll([], metadata.GetOr([]));
    var a := ("last_updated", MText(OfficialUpdate));
    var b := ("data_period", MText(Period(allYears)));
    var c := ("years_available", MNum(|allYears|));
    assert MetadataOf(metadata, allYears) == PutAll(base, [a, b, c]);
    PutAllThree(base, a, b, c);
  }

  /** `{ ...base, a, b, c }` for three distinct keys. */
  lemma PutAllThree<V>(base: Dict<V>, a: (string, V), b: (string, V), c: (string, V))
    ensures PutAll(base, [a, b, c]) == Put(Put(Put(base, a.0, a.1), b.0, b.1), c.0, c.1)
  {
    var d1 := Put(base, a.0, a.1);
    var d2 := Put(d1, b.0, b.1);
    var d3 := Put(d2, c.0, c.1);
    assert [a, b, c][0] == a && [a, b, c][1..] == [b, c];
    assert [b, c][0] == b && [b, c][1..] == [c];
    assert [c][0] == c && [c][1..] == [];
    assert PutAll(d3, []) == d3;
    assert PutAll(d2, [c]) == PutAll(d3, []);
    assert PutAll(d1, [b, c]) == PutAll(d2, [c]);
    assert PutAll(base, [a, b, c]) == PutAll(d1, [b, c]);
  }

  /** The period names the earliest and the latest year of the result set. */
  lemma PeriodBounds(allYears: seq<string>)
    requires |allYears| > 0
    ensures Period(allYears) == Least(allYears) + " - " + Greatest(allYears)
    ensures forall y :: y in allYears ==> StrLe(Least(allYears), y) && StrLe(y, Greatest(allYears))
  {
    LeastIsLowerBound(allYears);
    GreatestIsUpperBound(allYears);
  }

  // ---------------------------------------------------------------------
  // All result sets

  predicate Contributes(r: ResultSet)
  {
    r.data.Some? && |r.data.value| > 0
  }

  /** The entry filed for a result set with records. */
  function DataOf(r: ResultSet): CrimeData
    requires Contributes(r)
  {
    var records := r.data.value;
    var g := Group(records);
    GroupWellGrouped(records);
    CrimeData(Stats(g), |records|, MetadataOf(r.metadata, AllYears(g)))
  }

  /** processed after the result sets have been visited in order. */
  function Processed(results: seq<ResultSet>): Dict<CrimeData>
    decreases |results|
  {
    if results == [] then []
    else
      var p := Processed(results[..|results| - 1]);
      var r := results[|results| - 1];
      if Contributes(r) then Put(p, r.kind, DataOf(r)) else p
  }

  /** The `result.data.forEach` loop that fills groupedData. */
  method GroupRecords(records: seq<CrimeRecord>) returns (groupedData: Dict<Dict<int>>)
    ensures groupedData == Group(records)
  {
    groupedData := [];
    for j := 0 to |records|
      invariant groupedData == Group(records[..j])
    {
      var item := records[j];
      var years: Dict<int> := [];
      var found := Get(groupedData, item.indicateur);
      if found.Some? {
        years := found.value;
      }
      GroupAfter(records, j);
      groupedData := Put(groupedData, item.indicateur, Put(years, item.annee, CountOf(item.nombre)));
    }
    assert records[..|records|] == records;
  }

  lemma GroupAfter(records: seq<CrimeRecord>, j: nat)
    requires j < |records|
    ensures var g := Group(records[..j]);
      var item := records[j];
      Group(records[..j + 1]) == Put(g, item.indicateur, Put(Get(g, item.indicateur).GetOr([]), item.annee, CountOf(item.nombre)))
  {
    assert records[..j + 1][..j] == records[..j];
  }

  /** The nested `forEach` loops that fill the allYears set. */
  method CollectYears(groupedData: Dict<Dict<int>>) returns (allYears: seq<string>)
    ensures allYears == AllYears(groupedData)
  {
    allYears := [];
    for k := 0 to |groupedData|
      invariant allYears == AllYears(groupedData[..k])
    {
      assert groupedData[..k + 1][..k] == groupedData[..k];
      var ys := Keys(groupedData[k].1);
      for m := 0 to |ys|
        invariant allYears == AddYears(AllYears(groupedData[..k]), ys[..m])
      {
        assert ys[..m + 1][..m] == ys[..m];
        if ys[m] !in allYears {
          allYears := allYears + [ys[m]];
        }
      }
      assert ys[..|ys|] == ys;
    }
    assert groupedData[..|groupedData|] == groupedData;
  }

  /** `processCrimeData(results)`. */
  method ProcessCrimeData(results: seq<ResultSet>) returns (processed: Dict<CrimeData>)
    ensures processed == Processed(results)
  {
    processed := [];
    for i := 0 to |results|
      invariant processed == Processed(results[..i])
    {
      ProcessedAfter(results, i);
      var result := results[i];
      if result.data.Some? && |result.data.value| > 0 {
        var entry := ProcessResult(result);
        processed := Put(processed, result.kind, entry);
      }
    }
    assert results[..|results|] == results;
  }

  /** The body of `results.forEach` for a result set with records. */
  method ProcessResult(result: ResultSet) returns (entry: CrimeData)
    requires Contributes(result)
    ensures entry == DataOf(result)
  {
    var records := result.data.value;
    var groupedData := GroupRecords(records);
    GroupWellGrouped(records);
    var statsWithEvolution := Stats(groupedData);
    var allYears := CollectYears(groupedData);
    entry := CrimeData(statsWithEvolution, |records|, MetadataOf(result.metadata, allYears));
  }

  lemma ProcessedAfter(results: seq<ResultSet>, i: nat)
    requires i < |results|
    ensures Processed(results[..i + 1]) ==
      if Contributes(results[i]) then Put(Processed(results[..i]), results[i].kind, DataOf(results[i]))
      else Processed(results[..i])
  {
    assert results[..i + 1][..i] == results[..i];
  }

  /** A type is filed exactly when some result set of that type has records. */
  lemma ProcessedTypes(results: seq<ResultSet>)
    ensures forall t :: t in Keys(Processed(results)) <==>
      exists i :: 0 <= i < |results| && Contributes(results[i]) && results[i].kind == t
  {
    ProcessedKinds(results);
  }

  /** The types of the result sets with records, in order. */
  function Kinds(results: seq<ResultSet>): (r: seq<string>)
    ensures forall t :: t in r <==> exists i :: 0 <= i < |results| && Contributes(results[i]) && results[i].kind == t
    decreases |results|
  {
    if results == [] then []
    else
      var init := results[..|results| - 1];
      var last := results[|results| - 1];
      assert forall i :: 0 <= i < |init| ==> init[i] == results[i];
      Kinds(init) + (if Contributes(last) then [last.kind] else [])
  }

  lemma {:induction false} ProcessedKinds(results: seq<ResultSet>)
    ensures forall t :: t in Keys(Processed(results)) <==> t in Kinds(results)
    decreases |results|
  {
    if results != [] {
      ProcessedKinds(results[..|results| - 1]);
    }
  }

  /** A type's entry is that of the last result set of the type with records. */
  lemma {:induction false} ProcessedOfLast(results: seq<ResultSet>, j: nat)
    requires j < |results| && Contributes(results[j])
    requires forall l :: j < l < |results| && Contributes(results[l]) ==> results[l].kind != results[j].kind
    ensures Get(Processed(results), results[j].kind) == Some(DataOf(results[j]))
    decreases |results|
  {
    if j < |results| - 1 {
      ProcessedOfLast(results[..|results| - 1], j);
    }
  }

  /** The indicators of the statistics, in order. */
  function StatNames(stats: seq<CrimeStat>): (r: seq<string>)
    ensures |r| == |stats| && forall i :: 0 <= i < |stats| ==> r[i] == stats[i].indicateur
  {
    seq(|stats|, i requires 0 <= i < |stats| => stats[i].indicateur)
  }

  /** An entry counts the records of its result set and has one statistic
      per distinct indicator of the records, in order of first appearance. */
  lemma DataFacts(r: ResultSet)
    requires Contributes(r)
    ensures DataOf(r).total == |r.data.value|
    ensures StatNames(DataOf(r).stats) == FirstOccurrences(Indicators(r.data.value))
    ensures Distinct(StatNames(DataOf(r).stats))
    ensures forall ind :: ind in StatNames(DataOf(r).stats) <==> ind in Indicators(r.data.value)
    ensures Get(DataOf(r).metadata, "last_updated") == Some(MText(OfficialUpdate))
  {
    var records := r.data.value;
    var g := Group(records);
    GroupWellGrouped(records);
    GroupIndicators(records);
    GroupOrder(records);
    assert DataOf(r).stats == Stats(g);
    StatNamesAreKeys(g);
    MetadataFields(r.metadata, AllYears(g), "last_updated");
  }

  /** The statistics are named after the groups, in order, once each. */
  lemma StatNamesAreKeys(g: Dict<Dict<int>>)
    requires WellGrouped(g)
    ensures StatNames(Stats(g)) == Keys(g) && Distinct(Keys(g))
  {
    var names := StatNames(Stats(g));
    forall i | 0 <= i < |g| ensures names[i] == Keys(g)[i] {
      KeysAt(g, i);
    }
    forall i, j | 0 <= i < j < |g| ensures Keys(g)[i] != Keys(g)[j] {
      KeysAt(g, i);
      KeysAt(g, j);
    }
  }

  /** years_available counts the distinct years of the records, and
      data_period is "Non disponible" only when there is none. */
  lemma YearsAvailable(r: ResultSet)
    requires Contributes(r)
    ensures var allYears := AllYears(Group(r.data.value));
      Distinct(allYears)
      && (forall y :: y in allYears <==> y in Years(r.data.value))
      && Get(DataOf(r).metadata, "years_available") == Some(MNum(|allYears|))
      && Get(DataOf(r).metadata, "data_period") == Some(MText(Period(allYears)))
      && (Period(allYears) == NoPeriod <==> allYears == [])
  {
    var records := r.data.value;
    var allYears := AllYears(Group(records));
    AllYearsMeaning(Group(records));
    forall y ensures y in allYears <==> y in Years(records) {
      AllYearsOfRecords(records, y);
    }
    MetadataFields(r.metadata, allYears, "years_available");
    MetadataFields(r.metadata, allYears, "data_period");
    PeriodIsNamed(allYears);
  }

  lemma PeriodIsNamed(allYears: seq<string>)
    ensures Period(allYears) == NoPeriod <==> allYears == []
  {
    if |allYears| > 0 {
      var p := Period(allYears);
      assert p[|Least(allYears)| + 1] == '-';
      assert forall i :: 0 <= i < |NoPeriod| ==> NoPeriod[i] != '-';
    }
  }

  // ---------------------------------------------------------------------
  // The geocoder context

  /** department and departmentCode of the location. */
  datatype Location = Location(departmentCode: string, department: Option<string>)

  /** `(context || "").split(",").map(s => s.trim())`, then parts 0 and 1;
      `None` for a missing part 1. */
  function ParseContext(context: Option<string>): (loc: Location)
  {
    var parts := Split(context.GetOr(""), ',');
    var trimmed := seq(|parts|, i requires 0 <= i < |parts| => Trim(parts[i]));
    Location(trimmed[0], if |trimmed| > 1 then Some(trimmed[1]) else None)
  }

  predicate Trimmed(s: string)
  {
    s == [] || (!IsJsSpace(s[0]) && !IsJsSpace(s[|s| - 1]))
  }

  /** The context string of a location with an optional region. */
  function ContextOf(code: string, department: string, region: Option<string>): string
  {
    code + ", " + department + (if region.Some? then ", " + region.value else "")
  }

  lemma ContextParts(code: string, department: string, region: Option<string>)
    requires ',' !in code && ',' !in department
    ensures var parts := Split(ContextOf(code, department, region), ',');
      |parts| >= 2 && parts[0] == code && parts[1] == " " + department
  {
    var tail := if region.Some? then ", " + region.value else "";
    var second := " " + department;
    assert ',' !in second;
    assert ContextOf(code, department, region) == code + [','] + (second + tail);
    SplitAtSeparator(code, second + tail, ',');
    if region.Some? {
      assert second + tail == second + [','] + (" " + region.value);
      SplitAtSeparator(second, " " + region.value, ',');
    } else {
      assert second + tail == second;
      SplitNoSeparator(second, ',');
    }
  }

  /** A context "code, department" or "code, department, region" gives back
      the code and the department. */
  lemma ContextRoundTrip(code: string, department: string, region: Option<string>)
    requires ',' !in code && ',' !in department
    requires Trimmed(code) && Trimmed(department)
    ensures ParseContext(Some(ContextOf(code, department, region))) == Location(code, Some(department))
  {
    ContextParts(code, department, region);
    TrimSpacePrefix(code);
    TrimSpacePrefix(department);
  }

  /** Without a context the code is empty and the department is missing. */
  lemma NoContext()
    ensures ParseContext(None) == Location("", None)
    ensures ParseContext(Some("")) == Location("", None)
  {
    SplitNoSeparator("", ',');
  }
}
