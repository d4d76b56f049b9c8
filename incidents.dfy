/** One row of the shark-attack incident table and the two fixed lookup tables that
    normalise its Sex and Type cells. */
module Incidents {
  import opened Options

  /** A row as the cleaning sees it once the administrative columns are gone. A missing
      (NaN) cell is None. Time holds the text `str()` gives for the cell. `others` holds the
      remaining cells (Date, Area, Location, Activity, Age, Injury, Species, ...), which the
      cleaning only compares when it looks for duplicate rows. */
  datatype Incident = Incident(
    sex: Option<string>,
    incidentType: Option<string>,
    year: Option<int>,
    time: Option<string>,
    country: Option<string>,
    others: seq<Option<string>>)

  /** The gender table: noisy spellings of the Sex cell and what they stand for. */
  const GenderMapping: map<string, string> := map[
    "F" := "F",
    "lli" := "F",
    "M" := "M",
    "N" := "M",
    " M" := "M",
    "M x 2" := "M",
    "." := "F",
    "M " := "M"
  ]

  /** `Series.replace(gender_mapping)` on one cell: a key of the table becomes its value,
      anything else (NaN included) is left as it was. */
  function NormalizeSex(sex: Option<string>): (r: Option<string>)
    ensures r == Some("F") <==> sex in {Some("F"), Some("lli"), Some(".")}
    ensures r == Some("M") <==> sex in {Some("M"), Some("N"), Some(" M"), Some("M x 2"), Some("M ")}
    ensures (sex.None? || sex.value !in GenderMapping) ==> r == sex
  {
    match sex
    case Some(s) => if s in GenderMapping then Some(GenderMapping[s]) else sex
    case None => None
  }

  /** Normalising the Sex cell a second time changes nothing. */
  lemma NormalizeSexIdempotent(sex: Option<string>)
    ensures NormalizeSex(NormalizeSex(sex)) == NormalizeSex(sex)
  {
  }

  /** The type table: the incident types kept, and the ones folded into Others. */
  const TypeMapping: map<string, string> := map[
    "Unprovoked" := "Unprovoked",
    "Provoked" := "Provoked",
    "Invalid" := "Others",
    "Watercraft" := "Others",
    "Sea Disaster" := "Others",
    "Questionable" := "Others"
  ]

  /** `Series.map(type_mapping)` on one cell: a key of the table becomes its value, anything
      else (NaN included) becomes NaN. */
  function NormalizeType(incidentType: Option<string>): (r: Option<string>)
    ensures r == Some("Unprovoked") <==> incidentType == Some("Unprovoked")
    ensures r == Some("Provoked") <==> incidentType == Some("Provoked")
    ensures r == Some("Others")
        <==> incidentType in {Some("Invalid"), Some("Watercraft"), Some("Sea Disaster"), Some("Questionable")}
    ensures r.None? <==> incidentType.None? || incidentType.value !in TypeMapping
  {
    match incidentType
    case Some(s) => if s in TypeMapping then Some(TypeMapping[s]) else None
    case None => None
  }

  /** Unlike the Sex table, the Type table is not a fixed point of itself: "Others" is not
      one of its keys, so mapping twice turns every Others into NaN. */
  lemma NormalizeTypeTwice(incidentType: Option<string>)
    ensures NormalizeType(NormalizeType(incidentType))
         == if NormalizeType(incidentType) == Some("Others") then None else NormalizeType(incidentType)
  {
  }

  /** The examples: "Sea Disaster" is Others, the unlisted "Boat" becomes NaN, and the
      stray spellings "lli" and "M x 2" become F and M. */
  lemma NormalizeExamples()
    ensures NormalizeType(Some("Sea Disaster")) == Some("Others")
    ensures NormalizeType(Some("Boat")) == None
    ensures NormalizeSex(Some("lli")) == Some("F")
    ensures NormalizeSex(Some("M x 2")) == Some("M")
    ensures NormalizeSex(Some("Boy")) == Some("Boy")
  {
  }
}
