/** The five Norwegian price areas (Shared/Area.swift), a `String`-backed,
    `CaseIterable` enum. */
module Areas {
  import opened Results

  datatype Area = NO1 | NO2 | NO3 | NO4 | NO5

  /** `Area.allCases`, in declaration order. */
  const AllCases: seq<Area> := [NO1, NO2, NO3, NO4, NO5]

  /** `rawValue`: each case is backed by its own name. */
  function RawValue(a: Area): (s: string)
    ensures |s| == 3 && s[..2] == "NO"
    ensures '1' <= s[2] <= '5'
    ensures AllCases[s[2] as int - '1' as int] == a
  {
    match a
    case NO1 => "NO1"
    case NO2 => "NO2"
    case NO3 => "NO3"
    case NO4 => "NO4"
    case NO5 => "NO5"
  }

  /** `Area(rawValue:)`, the failable initialiser Swift derives. */
  function FromRawValue(s: string): (r: Option<Area>)
    ensures r.Some? ==> RawValue(r.value) == s
  {
    if s == "NO1" then Some(NO1)
    else if s == "NO2" then Some(NO2)
    else if s == "NO3" then Some(NO3)
    else if s == "NO4" then Some(NO4)
    else if s == "NO5" then Some(NO5)
    else None
  }

  /** Reading back a raw value gives the case it came from. */
  lemma RawValueRoundTrip(a: Area)
    ensures FromRawValue(RawValue(a)) == Some(a)
  {
  }

  /** Raw values are pairwise distinct. */
  lemma RawValueInjective(a: Area, b: Area)
    requires RawValue(a) == RawValue(b)
    ensures a == b
  {
    RawValueRoundTrip(a);
    RawValueRoundTrip(b);
  }

  /** `allCases` lists every area exactly once. */
  lemma AllCasesComplete(a: Area)
    ensures |AllCases| == 5
    ensures a in AllCases
    ensures forall i, j :: 0 <= i < j < |AllCases| ==> AllCases[i] != AllCases[j]
  {
  }

  /** The raw value of the area at position `i` of `allCases` ends in the
      digit `i + 1`, so the declaration order is NO1, NO2, ..., NO5. */
  lemma AllCasesInOrder(i: int)
    requires 0 <= i < |AllCases|
    ensures RawValue(AllCases[i]) == "NO" + [('1' as int + i) as char]
  {
  }
}
