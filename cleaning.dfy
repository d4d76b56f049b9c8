/** `clean_data`: the stage-by-stage cleaning of the incident table, each stage a row
    selection, a column map or a prefix, and what the whole pipeline guarantees. */
module Cleaning {
  import opened Options
  import opened Sequences
  import opened TimeOfDay
  import opened Incidents

  /** How many rows the cleaned table keeps at most (`iloc[:1000]`). */
  const RowLimit: nat := 1000

  function Min(a: nat, b: nat): nat
  {
    if a <= b then a else b
  }

  // ---- Row-level masks and maps ----

  /** The row of the given width whose every cell is NaN. */
  function EmptyRow(width: nat): Incident
  {
    Incident(None, None, None, None, None, seq(width, _ => None))
  }

  /** The mask of `dropna(how='all')`: some cell of the row is present, that is, the row
      is not the all-NaN row of its width. */
  predicate HasSomeValue(r: Incident)
    ensures HasSomeValue(r) <==> r != EmptyRow(|r.others|)
  {
    r.sex.Some? || r.incidentType.Some? || r.year.Some? || r.time.Some? || r.country.Some?
    || exists i :: 0 <= i < |r.others| && r.others[i].Some?
  }

  /** The mask of `dropna(subset=['Year'])`. */
  predicate HasYear(r: Incident)
  {
    r.year.Some?
  }

  /** `astype(str)` on a Time cell: a missing cell becomes the text "nan". */
  function TimeText(time: Option<string>): (text: string)
    ensures time.Some? ==> text == time.value
    ensures time.None? ==> !MatchesTimeFilter(text)
  {
    match time
    case Some(s) => s
    case None => "nan"
  }

  /** The mask of `str.match(r'^\d{1,2}h\d{2}$')` on the Time text. */
  predicate HasTimePattern(r: Incident)
  {
    MatchesTimeFilter(TimeText(r.time))
  }

  /** The conjunction of the two row selections that follow duplicate removal. */
  predicate HasYearAndTimePattern(r: Incident)
  {
    HasYear(r) && HasTimePattern(r)
  }

  /** Everything a row must satisfy to survive the row selections. */
  predicate Survives(r: Incident)
  {
    HasSomeValue(r) && HasYearAndTimePattern(r)
  }

  /** The mask of `dropna(subset=['Time'])`. */
  predicate HasTime(r: Incident)
  {
    r.time.Some?
  }

  function WithMappedSex(r: Incident): Incident
  {
    r.(sex := NormalizeSex(r.sex))
  }

  function WithMappedType(r: Incident): Incident
  {
    r.(incidentType := NormalizeType(r.incidentType))
  }

  function WithTimeText(r: Incident): Incident
  {
    r.(time := Some(TimeText(r.time)))
  }

  function WithTimeOfDay(r: Incident): Incident
  {
    r.(time := Some(CategorizeTime(TimeText(r.time))))
  }

  /** Everything the pipeline rewrites in a row that it keeps: Sex and Type through their
      tables, Time to its part of the day. Year, Country and the other cells are kept. */
  function NormalizeRow(r: Incident): Incident
  {
    Incident(NormalizeSex(r.sex), NormalizeType(r.incidentType), r.year,
             Some(CategorizeTime(TimeText(r.time))), r.country, r.others)
  }

  // ---- The stages, in the order clean_data runs them ----

  function DropEmptyRows(t: seq<Incident>): seq<Incident>
  {
    Filter(t, HasSomeValue)
  }

  function ReplaceSex(t: seq<Incident>): seq<Incident>
  {
    Map(t, WithMappedSex)
  }

  function DropMissingYear(t: seq<Incident>): seq<Incident>
  {
    Filter(t, HasYear)
  }

  function MapType(t: seq<Incident>): seq<Incident>
  {
    Map(t, WithMappedType)
  }

  function TimeAsText(t: seq<Incident>): seq<Incident>
  {
    Map(t, WithTimeText)
  }

  function KeepTimePattern(t: seq<Incident>): seq<Incident>
  {
    Filter(t, HasTimePattern)
  }

  function CategorizeTimes(t: seq<Incident>): seq<Incident>
  {
    Map(t, WithTimeOfDay)
  }

  function DropMissingTime(t: seq<Incident>): seq<Incident>
  {
    Filter(t, HasTime)
  }

  function FirstRows(t: seq<Incident>): seq<Incident>
  {
    t[..Min(RowLimit, |t|)]
  }

  /** clean_data, as the composition of its stages. */
  function Clean(t: seq<Incident>): (cleaned: seq<Incident>)
    ensures |cleaned| <= RowLimit
    ensures forall r :: r in cleaned ==> HasTime(r)
  {
    FirstRows(DropMissingTime(CategorizeTimes(KeepTimePattern(TimeAsText(
      MapType(DropMissingYear(ReplaceSex(DropDuplicates(DropEmptyRows(t))))))))))
  }

  /** clean_data as the source writes it: the table is rebound stage by stage and the Sex,
      Type and Time columns are overwritten in turn. */
  method CleanData(table: seq<Incident>) returns (cleaned: seq<Incident>)
    ensures cleaned == Clean(table)
    ensures |cleaned| <= RowLimit
    ensures forall r :: r in cleaned ==> HasYear(r) && HasTime(r) && IsTimeOfDay(r.time.value)
  {
    var df := DropEmptyRows(table);
    df := DropDuplicates(df);
    df := ReplaceSex(df);
    df := DropMissingYear(df);
    df := MapType(df);
    df := TimeAsText(df);
    df := KeepTimePattern(df);
    df := CategorizeTimes(df);
    df := DropMissingTime(df);
    cleaned := FirstRows(df);
    CleanRowsAreLabelled(table);
  }

  // ---- What the pipeline guarantees ----

  /** The input rows that make it through the row selections: not empty, first of their
      duplicates, with a Year, and with a Time of the right shape. */
  function Survivors(t: seq<Incident>): seq<Incident>
  {
    Filter(Filter(DropDuplicates(DropEmptyRows(t)), HasYear), HasTimePattern)
  }

  /** The survivors are input rows, in input order, each at most once, and they are exactly
      the input rows that are not empty, have a Year and have a Time of the right shape.
      Precisely: the first copy of each input row that passes all three masks. */
  lemma SurvivorsAreSelectedInputRows(t: seq<Incident>)
    ensures Survivors(t) == DropDuplicates(Filter(t, Survives))
    ensures Subseq(Survivors(t), t)
    ensures Distinct(Survivors(t))
    ensures forall r :: r in Survivors(t) <==> r in t && HasSomeValue(r) && HasYear(r) && HasTimePattern(r)
  {
    var ne := DropEmptyRows(t);
    FilterDropDuplicates(ne, HasYear);
    FilterDropDuplicates(Filter(ne, HasYear), HasTimePattern);
    FilterFilter(ne, HasYear, HasTimePattern, HasYearAndTimePattern);
    FilterFilter(t, HasSomeValue, HasYearAndTimePattern, Survives);
    var e := DropEmptyRows(t);
    var d := DropDuplicates(e);
    var y := Filter(d, HasYear);
    SubseqTrans(d, e, t);
    SubseqTrans(y, d, t);
    SubseqTrans(Survivors(t), y, t);
    FilterDistinct(d, HasYear);
    FilterDistinct(y, HasTimePattern);
  }

  /** The four column rewrites, one after the other, are NormalizeRow on each row. */
  lemma RewritesAreNormalizeRow(z: seq<Incident>)
    ensures CategorizeTimes(TimeAsText(MapType(ReplaceSex(z)))) == Map(z, NormalizeRow)
  {
    var m := CategorizeTimes(TimeAsText(MapType(ReplaceSex(z))));
    forall i | 0 <= i < |z|
      ensures m[i] == NormalizeRow(z[i])
    {
      assert m[i] == WithTimeOfDay(WithTimeText(WithMappedType(WithMappedSex(z[i]))));
    }
  }

  /** The Year selection reads no cell the Sex map rewrites. The Time-pattern selection
      reads Time, which the Time-text map rewrites, but only from a missing cell to "nan",
      which fails the pattern just as the missing cell does. So both selections can be made
      before the maps. */
  lemma SelectionsBeforeRewrites(d: seq<Incident>)
    ensures KeepTimePattern(TimeAsText(MapType(DropMissingYear(ReplaceSex(d)))))
         == TimeAsText(MapType(ReplaceSex(Filter(Filter(d, HasYear), HasTimePattern))))
  {
    var y := Filter(d, HasYear);
    FilterMap(d, WithMappedSex, HasYear, HasYear);
    assert DropMissingYear(ReplaceSex(d)) == ReplaceSex(y);
    FilterMap(MapType(ReplaceSex(y)), WithTimeText, HasTimePattern, HasTimePattern);
    FilterMap(ReplaceSex(y), WithMappedType, HasTimePattern, HasTimePattern);
    FilterMap(y, WithMappedSex, HasTimePattern, HasTimePattern);
  }

  /** Each rewriting map leaves the cells the later masks read as they were, so the
      pipeline is: select the survivors, normalise each one, keep the first 1000. */
  lemma CleanIsNormalizedSurvivors(t: seq<Incident>)
    ensures Clean(t) == FirstRows(Map(Survivors(t), NormalizeRow))
    ensures |Clean(t)| == Min(RowLimit, |Survivors(t)|)
    ensures forall i :: 0 <= i < |Clean(t)| ==> Clean(t)[i] == NormalizeRow(Survivors(t)[i])
  {
    var z := Survivors(t);
    SelectionsBeforeRewrites(DropDuplicates(DropEmptyRows(t)));
    RewritesAreNormalizeRow(z);
    DropMissingTimeRemovesNothing(TimeAsText(MapType(ReplaceSex(z))));
  }

  /** Every Time left after the categorisation holds a label, so `dropna(subset=['Time'])`
      removes nothing. */
  lemma DropMissingTimeRemovesNothing(t: seq<Incident>)
    ensures DropMissingTime(CategorizeTimes(t)) == CategorizeTimes(t)
    ensures forall r :: r in CategorizeTimes(t) ==> HasTime(r) && IsTimeOfDay(r.time.value)
  {
    var c := CategorizeTimes(t);
    forall r | r in c
      ensures HasTime(r) && IsTimeOfDay(r.time.value)
    {
      var i :| 0 <= i < |c| && c[i] == r;
      assert r == WithTimeOfDay(t[i]);
    }
    FilterKeepsAll(c, HasTime);
  }

  /** Every cleaned row has a Year and a Time that is one of the four labels. */
  lemma CleanRowsAreLabelled(t: seq<Incident>)
    ensures |Clean(t)| <= RowLimit
    ensures forall r :: r in Clean(t) ==> HasYear(r) && HasTime(r) && IsTimeOfDay(r.time.value)
  {
    var c := Clean(t);
    var z := Survivors(t);
    CleanIsNormalizedSurvivors(t);
    SurvivorsAreSelectedInputRows(t);
    forall r | r in c
      ensures HasYear(r) && HasTime(r) && IsTimeOfDay(r.time.value)
    {
      var i :| 0 <= i < |c| && c[i] == r;
      assert z[i] in z;
    }
  }

  /** The cleaned table, cleaned again, is empty: its Time cells are labels, which never
      match the time pattern. */
  lemma CleanTwiceIsEmpty(t: seq<Incident>)
    ensures Clean(Clean(t)) == []
  {
    var c := Clean(t);
    CleanRowsAreLabelled(t);
    var y := Filter(DropDuplicates(DropEmptyRows(c)), HasYear);
    forall r | r in y
      ensures !HasTimePattern(r)
    {
      LabelsFailTimeFilter(r.time.value);
    }
    FilterKeepsNone(y, HasTimePattern);
    CleanIsNormalizedSurvivors(c);
  }

  /** `dropna(how='all')` a second time removes nothing. */
  lemma DropEmptyRowsIdempotent(t: seq<Incident>)
    ensures DropEmptyRows(DropEmptyRows(t)) == DropEmptyRows(t)
  {
    FilterIdempotent(t, HasSomeValue);
  }
}
