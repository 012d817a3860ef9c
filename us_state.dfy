/** The `USState` enum: fifty cases named by postal code, whose raw values are the full state names. */
module USStates {
  import opened Wrappers
  import opened Strings
  import opened Sequences

  datatype USState =
    | AL | AK | AZ | AR | CA | CO | CT | DE | FL | GA
    | HI | ID | IL | IN | IA | KS | KY | LA | ME | MD
    | MA | MI | MN | MS | MO | MT | NE | NV | NH | NJ
    | NM | NY | NC | ND | OH | OK | OR | PA | RI | SC
    | SD | TN | TX | UT | VT | VA | WA | WV | WI | WY

  /** The position of a case in the declaration, which is also its position in `allCases`. */
  function Ordinal(s: USState): (k: nat)
    ensures k < 50
  {
    match s
    case AL => 0
    case AK => 1
    case AZ => 2
    case AR => 3
    case CA => 4
    case CO => 5
    case CT => 6
    case DE => 7
    case FL => 8
    case GA => 9
    case HI => 10
    case ID => 11
    case IL => 12
    case IN => 13
    case IA => 14
    case KS => 15
    case KY => 16
    case LA => 17
    case ME => 18
    case MD => 19
    case MA => 20
    case MI => 21
    case MN => 22
    case MS => 23
    case MO => 24
    case MT => 25
    case NE => 26
    case NV => 27
    case NH => 28
    case NJ => 29
    case NM => 30
    case NY => 31
    case NC => 32
    case ND => 33
    case OH => 34
    case OK => 35
    case OR => 36
    case PA => 37
    case RI => 38
    case SC => 39
    case SD => 40
    case TN => 41
    case TX => 42
    case UT => 43
    case VT => 44
    case VA => 45
    case WA => 46
    case WV => 47
    case WI => 48
    case WY => 49
  }

  /** The case declared at position `k`. */
  function FromOrdinal(k: nat): USState
    requires k < 50
  {
    if k < 25 then
      if k < 12 then
        if k < 6 then
          if k < 3 then
            if k < 1 then
              AL
            else
              if k < 2 then
                AK
              else
                AZ
          else
            if k < 4 then
              AR
            else
              if k < 5 then
                CA
              else
                CO
        else
          if k < 9 then
            if k < 7 then
              CT
            else
              if k < 8 then
                DE
              else
                FL
          else
            if k < 10 then
              GA
            else
              if k < 11 then
                HI
              else
                ID
      else
        if k < 18 then
          if k < 15 then
            if k < 13 then
              IL
            else
              if k < 14 then
                IN
              else
                IA
          else
            if k < 16 then
              KS
            else
              if k < 17 then
                KY
              else
                LA
        else
          if k < 21 then
            if k < 19 then
              ME
            else
              if k < 20 then
                MD
              else
                MA
          else
            if k < 23 then
              if k < 22 then
                MI
              else
                MN
            else
              if k < 24 then
                MS
              else
                MO
    else
      if k < 37 then
        if k < 31 then
          if k < 28 then
            if k < 26 then
              MT
            else
              if k < 27 then
                NE
              else
                NV
          else
            if k < 29 then
              NH
            else
              if k < 30 then
                NJ
              else
                NM
        else
          if k < 34 then
            if k < 32 then
              NY
            else
              if k < 33 then
                NC
              else
                ND
          else
            if k < 35 then
              OH
            else
              if k < 36 then
                OK
              else
                OR
      else
        if k < 43 then
          if k < 40 then
            if k < 38 then
              PA
            else
              if k < 39 then
                RI
              else
                SC
          else
            if k < 41 then
              SD
            else
              if k < 42 then
                TN
              else
                TX
        else
          if k < 46 then
            if k < 44 then
              UT
            else
              if k < 45 then
                VT
              else
                VA
          else
            if k < 48 then
              if k < 47 then
                WA
              else
                WV
            else
              if k < 49 then
                WI
              else
                WY
  }

  /** The raw-value table, in declaration order, five names per block. */
  const Names0: seq<string> := ["Alabama", "Alaska", "Arizona", "Arkansas", "California"]
  const Names1: seq<string> := ["Colorado", "Connecticut", "Delaware", "Florida", "Georgia"]
  const Names2: seq<string> := ["Hawaii", "Idaho", "Illinois", "Indiana", "Iowa"]
  const Names3: seq<string> := ["Kansas", "Kentucky", "Louisiana", "Maine", "Maryland"]
  const Names4: seq<string> := ["Massachusetts", "Michigan", "Minnesota", "Mississippi", "Missouri"]
  const Names5: seq<string> := ["Montana", "Nebraska", "Nevada", "New Hampshire", "New Jersey"]
  const Names6: seq<string> := ["New Mexico", "New York", "North Carolina", "North Dakota", "Ohio"]
  const Names7: seq<string> := ["Oklahoma", "Oregon", "Pennsylvania", "Rhode Island", "South Carolina"]
  const Names8: seq<string> := ["South Dakota", "Tennessee", "Texas", "Utah", "Vermont"]
  const Names9: seq<string> := ["Virginia", "Washington", "West Virginia", "Wisconsin", "Wyoming"]

  /** Entry `k` of the raw-value table. */
  function NameAt(k: nat): string
    requires k < 50
  {
    if k < 25 then
      if k < 10 then
        if k < 5 then
          Names0[k]
        else
          Names1[k - 5]
      else
        if k < 15 then
          Names2[k - 10]
        else
          if k < 20 then
            Names3[k - 15]
          else
            Names4[k - 20]
    else
      if k < 35 then
        if k < 30 then
          Names5[k - 25]
        else
          Names6[k - 30]
      else
        if k < 40 then
          Names7[k - 35]
        else
          if k < 45 then
            Names8[k - 40]
          else
            Names9[k - 45]
  }

  /** `rawValue`: the full name declared for the case, never the two-letter code. */
  function RawValue(s: USState): (r: string)
    ensures 4 <= |r|
  {
    NameAt(Ordinal(s))
  }

  /** `allCases`: every case in declaration order, each at its own position. */
  function AllCases(): (r: seq<USState>)
    ensures |r| == 50
    ensures forall k :: 0 <= k < 50 ==> Ordinal(r[k]) == k
  {
    seq(50, k requires 0 <= k < 50 => FromOrdinal(k))
  }

  lemma Block0Ascending(i: nat)
    requires i < 4
    ensures Precedes(Names0[i], Names0[i + 1])
  {
    match i
    case 0 => PrecedesAt("Alabama", "Alaska", 3);
    case 1 => PrecedesAt("Alaska", "Arizona", 1);
    case 2 => PrecedesAt("Arizona", "Arkansas", 2);
    case 3 => PrecedesAt("Arkansas", "California", 0);
  }

  lemma Block1Ascending(i: nat)
    requires i < 4
    ensures Precedes(Names1[i], Names1[i + 1])
  {
    match i
    case 0 => PrecedesAt("Colorado", "Connecticut", 2);
    case 1 => PrecedesAt("Connecticut", "Delaware", 0);
    case 2 => PrecedesAt("Delaware", "Florida", 0);
    case 3 => PrecedesAt("Florida", "Georgia", 0);
  }

  lemma Block2Ascending(i: nat)
    requires i < 4
    ensures Precedes(Names2[i], Names2[i + 1])
  {
    match i
    case 0 => PrecedesAt("Hawaii", "Idaho", 0);
    case 1 => PrecedesAt("Idaho", "Illinois", 1);
    case 2 => PrecedesAt("Illinois", "Indiana", 1);
    case 3 => PrecedesAt("Indiana", "Iowa", 1);
  }

  lemma Block3Ascending(i: nat)
    requires i < 4
    ensures Precedes(Names3[i], Names3[i + 1])
  {
    match i
    case 0 => PrecedesAt("Kansas", "Kentucky", 1);
    case 1 => PrecedesAt("Kentucky", "Louisiana", 0);
    case 2 => PrecedesAt("Louisiana", "Maine", 0);
    case 3 => PrecedesAt("Maine", "Maryland", 2);
  }

  lemma Block4Ascending(i: nat)
    requires i < 4
    ensures Precedes(Names4[i], Names4[i + 1])
  {
    match i
    case 0 => PrecedesAt("Massachusetts", "Michigan", 1);
    case 1 => PrecedesAt("Michigan", "Minnesota", 2);
    case 2 => PrecedesAt("Minnesota", "Mississippi", 2);
    case 3 => PrecedesAt("Mississippi", "Missouri", 4);
  }

  lemma Block5Ascending(i: nat)
    requires i < 4
    ensures Precedes(Names5[i], Names5[i + 1])
  {
    match i
    case 0 => PrecedesAt("Montana", "Nebraska", 0);
    case 1 => PrecedesAt("Nebraska", "Nevada", 2);
    case 2 => PrecedesAt("Nevada", "New Hampshire", 2);
    case 3 => PrecedesAt("New Hampshire", "New Jersey", 4);
  }

  lemma Block6Ascending(i: nat)
    requires i < 4
    ensures Precedes(Names6[i], Names6[i + 1])
  {
    match i
    case 0 => PrecedesAt("New Mexico", "New York", 4);
    case 1 => PrecedesAt("New York", "North Carolina", 1);
    case 2 => PrecedesAt("North Carolina", "North Dakota", 6);
    case 3 => PrecedesAt("North Dakota", "Ohio", 0);
  }

  lemma Block7Ascending(i: nat)
    requires i < 4
    ensures Precedes(Names7[i], Names7[i + 1])
  {
    match i
    case 0 => PrecedesAt("Oklahoma", "Oregon", 1);
    case 1 => PrecedesAt("Oregon", "Pennsylvania", 0);
    case 2 => PrecedesAt("Pennsylvania", "Rhode Island", 0);
    case 3 => PrecedesAt("Rhode Island", "South Carolina", 0);
  }

  lemma Block8Ascending(i: nat)
    requires i < 4
    ensures Precedes(Names8[i], Names8[i + 1])
  {
    match i
    case 0 => PrecedesAt("South Dakota", "Tennessee", 0);
    case 1 => PrecedesAt("Tennessee", "Texas", 2);
    case 2 => PrecedesAt("Texas", "Utah", 0);
    case 3 => PrecedesAt("Utah", "Vermont", 0);
  }

  lemma Block9Ascending(i: nat)
    requires i < 4
    ensures Precedes(Names9[i], Names9[i + 1])
  {
    match i
    case 0 => PrecedesAt("Virginia", "Washington", 0);
    case 1 => PrecedesAt("Washington", "West Virginia", 1);
    case 2 => PrecedesAt("West Virginia", "Wisconsin", 1);
    case 3 => PrecedesAt("Wisconsin", "Wyoming", 1);
  }

  lemma AdjacentNamesAscending(k: nat)
    requires k < 49
    ensures Precedes(NameAt(k), NameAt(k + 1))
  {
    if k < 4 {
      Block0Ascending(k - 0);
    } else if k == 4 {
      PrecedesAt("California", "Colorado", 1);
    } else if k < 9 {
      Block1Ascending(k - 5);
    } else if k == 9 {
      PrecedesAt("Georgia", "Hawaii", 0);
    } else if k < 14 {
      Block2Ascending(k - 10);
    } else if k == 14 {
      PrecedesAt("Iowa", "Kansas", 0);
    } else if k < 19 {
      Block3Ascending(k - 15);
    } else if k == 19 {
      PrecedesAt("Maryland", "Massachusetts", 2);
    } else if k < 24 {
      Block4Ascending(k - 20);
    } else if k == 24 {
      PrecedesAt("Missouri", "Montana", 1);
    } else if k < 29 {
      Block5Ascending(k - 25);
    } else if k == 29 {
      PrecedesAt("New Jersey", "New Mexico", 4);
    } else if k < 34 {
      Block6Ascending(k - 30);
    } else if k == 34 {
      PrecedesAt("Ohio", "Oklahoma", 1);
    } else if k < 39 {
      Block7Ascending(k - 35);
    } else if k == 39 {
      PrecedesAt("South Carolina", "South Dakota", 6);
    } else if k < 44 {
      Block8Ascending(k - 40);
    } else if k == 44 {
      PrecedesAt("Vermont", "Virginia", 1);
    } else if k < 49 {
      Block9Ascending(k - 45);
    }
  }

  /** Any earlier table entry precedes any later one. */
  lemma {:induction false} NamesAscending(i: nat, j: nat)
    requires i < j < 50
    ensures Precedes(NameAt(i), NameAt(j))
    decreases j - i
  {
    AdjacentNamesAscending(j - 1);
    if i < j - 1 {
      NamesAscending(i, j - 1);
      PrecedesTransitive(NameAt(i), NameAt(j - 1), NameAt(j));
    }
  }

  /** `FromOrdinal` undoes `Ordinal`, checked ten cases at a time. */
  lemma OrdinalInverse(s: USState)
    ensures FromOrdinal(Ordinal(s)) == s
  {
    if s in {AL, AK, AZ, AR, CA, CO, CT, DE, FL, GA} {
      OrdinalInverse0(s);
    } else if s in {HI, ID, IL, IN, IA, KS, KY, LA, ME, MD} {
      OrdinalInverse1(s);
    } else if s in {MA, MI, MN, MS, MO, MT, NE, NV, NH, NJ} {
      OrdinalInverse2(s);
    } else if s in {NM, NY, NC, ND, OH, OK, OR, PA, RI, SC} {
      OrdinalInverse3(s);
    } else {
      OrdinalInverse4(s);
    }
  }

  lemma OrdinalInverse0(s: USState)
    requires s in {AL, AK, AZ, AR, CA, CO, CT, DE, FL, GA}
    ensures FromOrdinal(Ordinal(s)) == s
  {
  }

  lemma OrdinalInverse1(s: USState)
    requires s in {HI, ID, IL, IN, IA, KS, KY, LA, ME, MD}
    ensures FromOrdinal(Ordinal(s)) == s
  {
  }

  lemma OrdinalInverse2(s: USState)
    requires s in {MA, MI, MN, MS, MO, MT, NE, NV, NH, NJ}
    ensures FromOrdinal(Ordinal(s)) == s
  {
  }

  lemma OrdinalInverse3(s: USState)
    requires s in {NM, NY, NC, ND, OH, OK, OR, PA, RI, SC}
    ensures FromOrdinal(Ordinal(s)) == s
  {
  }

  lemma OrdinalInverse4(s: USState)
    requires s in {SD, TN, TX, UT, VT, VA, WA, WV, WI, WY}
    ensures FromOrdinal(Ordinal(s)) == s
  {
  }

  lemma FromOrdinalInverse(k: nat)
    requires k < 50
    ensures Ordinal(FromOrdinal(k)) == k
  {
  }

  /** There are exactly fifty cases, every case occurs in `allCases`, at its ordinal. */
  lemma AllCasesComplete(s: USState)
    ensures |AllCases()| == 50
    ensures AllCases()[Ordinal(s)] == s
    ensures s in AllCases()
  {
    OrdinalInverse(s);
  }

  /** `allCases` is strictly ascending by raw value. */
  lemma AllCasesAscending(i: nat, j: nat)
    requires i < j < |AllCases()|
    ensures Precedes(RawValue(AllCases()[i]), RawValue(AllCases()[j]))
  {
    FromOrdinalInverse(i);
    FromOrdinalInverse(j);
    NamesAscending(i, j);
  }

  /** Distinct cases have distinct raw values. */
  lemma RawValueInjective(s: USState, t: USState)
    ensures RawValue(s) == RawValue(t) ==> s == t
  {
    OrdinalInverse(s);
    OrdinalInverse(t);
    var i, j := Ordinal(s), Ordinal(t);
    if i < j {
      NamesAscending(i, j);
      PrecedesIrreflexive(NameAt(i));
    } else if j < i {
      NamesAscending(j, i);
      PrecedesIrreflexive(NameAt(j));
    }
  }

  /**
   * `allCases.first { $0.rawValue == raw }`: the case whose full name is
   * `raw`, if there is one; the same answer `USState(rawValue:)` gives.
   */
  function FromRawValue(raw: string): (r: Option<USState>)
    ensures r.Some? ==> RawValue(r.value) == raw
    ensures r.None? <==> forall s: USState :: RawValue(s) != raw
  {
    var r := FirstWhere(AllCases(), (s: USState) => RawValue(s) == raw);
    assert r.None? ==> forall s: USState :: RawValue(s) != raw by {
      if r.None? {
        forall s: USState ensures RawValue(s) != raw {
          AllCasesComplete(s);
        }
      }
    }
    r
  }

  /** Looking up a case's own raw value gives back that case. */
  lemma RawValueRoundTrip(s: USState)
    ensures FromRawValue(RawValue(s)) == Some(s)
  {
    AllCasesComplete(s);
    var r := FromRawValue(RawValue(s));
    RawValueInjective(r.value, s);
  }

  /** Two of the postal codes and their full names. */
  lemma KnownRawValues()
    ensures RawValue(CA) == "California"
    ensures RawValue(TX) == "Texas"
  {
  }

}
