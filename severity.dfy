// The three severity tiers of an incident, their ordinal codes, and the
// fixed code-to-name table the exporter uses (`severity_map`).

module SeverityTier {

  datatype Option<T> = None | Some(value: T)

  /** The closed set of severity tiers. */
  datatype Severity = Low | Medium | High

  /** The ordinal code of a tier: 0 = Low, 1 = Medium, 2 = High. */
  function Ordinal(s: Severity): (k: int)
    ensures 0 <= k <= 2
    ensures FromOrdinal(k) == Some(s)
  {
    match s
    case Low => 0
    case Medium => 1
    case High => 2
  }

  /** The tier whose code is `k`, or None when `k` is not a code. */
  function FromOrdinal(k: int): (r: Option<Severity>)
    ensures r.Some? <==> 0 <= k <= 2
  {
    if k == 0 then Some(Low)
    else if k == 1 then Some(Medium)
    else if k == 2 then Some(High)
    else None
  }

  /** The name of a tier as it appears in an exported record. */
  function Name(s: Severity): string
  {
    match s
    case Low => "Low"
    case Medium => "Medium"
    case High => "High"
  }

  /** The exporter's fixed lookup table from ordinal code to tier name. */
  const SeverityMap: map<int, string> := map[0 := "Low", 1 := "Medium", 2 := "High"]

  /** Decoding a code that FromOrdinal accepts and re-encoding it gives the code back. */
  lemma FromOrdinalInverse(k: int)
    requires FromOrdinal(k).Some?
    ensures Ordinal(FromOrdinal(k).value) == k
  {
  }

  /** The table holds exactly the ordinal codes, and maps each tier's code to the
      tier's name; so it agrees with the enumeration and nothing else. */
  lemma SeverityMapIsTierNaming(k: int)
    ensures k in SeverityMap <==> FromOrdinal(k).Some?
    ensures k in SeverityMap ==> SeverityMap[k] == Name(FromOrdinal(k).value)
  {
  }

  /** Distinct tiers have distinct names, so a name identifies its tier. */
  lemma NameInjective(s: Severity, t: Severity)
    requires Name(s) == Name(t)
    ensures s == t
  {
  }
}
