/** The five case-report records kept by barangay health workers, their
    choice sets and defaults, and the derived `trimester` of a pregnancy. */
module Reports {
  import opened Wrappers
  import opened Dates

  // ---------------------------------------------------------------- senior citizens

  datatype PensionSource = Sss | Gsis | PrivatePension | NoPension | OtherPension

  function PensionCode(p: PensionSource): string
  {
    match p
    case Sss => "sss"
    case Gsis => "gsis"
    case PrivatePension => "private"
    case NoPension => "none"
    case OtherPension => "other"
  }

  datatype MobilityStatus = Independent | Assisted | Wheelchair | Bedridden

  function MobilityCode(m: MobilityStatus): string
  {
    match m
    case Independent => "independent"
    case Assisted => "assisted"
    case Wheelchair => "wheelchair"
    case Bedridden => "bedridden"
  }

  function ParseMobility(s: string): (r: Option<MobilityStatus>)
    ensures r.Some? <==> s in {"independent", "assisted", "wheelchair", "bedridden"}
    ensures r.Some? ==> MobilityCode(r.value) == s
  {
    if s == "independent" then Some(Independent)
    else if s == "assisted" then Some(Assisted)
    else if s == "wheelchair" then Some(Wheelchair)
    else if s == "bedridden" then Some(Bedridden)
    else None
  }

  /** One-to-one with its resident; pension source may be left blank (None). */
  datatype SeniorCitizenReport = SeniorCitizenReport(
    resident: nat,
    pensionSource: Option<PensionSource>,
    mobilityStatus: MobilityStatus,
    lastCheckupDate: Option<Date>,
    isActive: bool)

  /** A senior-citizen report as first saved: mobility 'independent', active. */
  function NewSeniorCitizenReport(resident: nat, pensionSource: Option<PensionSource>): (r: SeniorCitizenReport)
    ensures r.resident == resident && r.pensionSource == pensionSource
    ensures MobilityCode(r.mobilityStatus) == "independent" && r.isActive
    ensures r.lastCheckupDate == None
  {
    SeniorCitizenReport(resident, pensionSource, Independent, None, true)
  }

  // ---------------------------------------------------------------- sari-sari stores

  datatype BusinessType = SariSari | Carenderia | Both | OtherFoodBusiness

  function BusinessTypeCode(b: BusinessType): string
  {
    match b
    case SariSari => "sari_sari"
    case Carenderia => "carenderia"
    case Both => "both"
    case OtherFoodBusiness => "other"
  }

  function ParseBusinessType(s: string): (r: Option<BusinessType>)
    ensures r.Some? <==> s in {"sari_sari", "carenderia", "both", "other"}
    ensures r.Some? ==> BusinessTypeCode(r.value) == s
  {
    if s == "sari_sari" then Some(SariSari)
    else if s == "carenderia" then Some(Carenderia)
    else if s == "both" then Some(Both)
    else if s == "other" then Some(OtherFoodBusiness)
    else None
  }

  /** Many per owner. */
  datatype SariSariStoreReport = SariSariStoreReport(
    owner: nat,
    businessName: string,
    businessType: BusinessType,
    numberOfEmployees: nat,
    hasProperSanitation: bool,
    hasFireSafetyMeasures: bool,
    isActive: bool)

  /** A store report as first saved: no employees, neither compliance flag, active. */
  function NewSariSariStoreReport(owner: nat, businessName: string, businessType: BusinessType): (r: SariSariStoreReport)
    ensures r.owner == owner && r.businessName == businessName && r.businessType == businessType
    ensures r.numberOfEmployees == 0 && !r.hasProperSanitation && !r.hasFireSafetyMeasures && r.isActive
  {
    SariSariStoreReport(owner, businessName, businessType, 0, false, false, true)
  }

  // ---------------------------------------------------------------- 4Ps beneficiaries

  /** One-to-one with its beneficiary; the 4Ps household id is unique. */
  datatype FourPsBeneficiaryReport = FourPsBeneficiaryReport(
    beneficiary: nat,
    householdId: string,
    setOfYear: int,
    educationCompliance: bool,
    healthCompliance: bool,
    familyDevelopmentSessions: bool,
    numberOfChildren: nat,
    pregnantWomenCount: nat,
    isActive: bool)

  /** A 4Ps report as first saved: compliant on all three conditions, no
      children or pregnant women counted yet, active. */
  function NewFourPsBeneficiaryReport(beneficiary: nat, householdId: string, setOfYear: int): (r: FourPsBeneficiaryReport)
    ensures r.beneficiary == beneficiary && r.householdId == householdId && r.setOfYear == setOfYear
    ensures r.educationCompliance && r.healthCompliance && r.familyDevelopmentSessions
    ensures r.numberOfChildren == 0 && r.pregnantWomenCount == 0 && r.isActive
  {
    FourPsBeneficiaryReport(beneficiary, householdId, setOfYear, true, true, true, 0, 0, true)
  }

  // ---------------------------------------------------------------- pregnancies

  datatype PregnancyOutcome = Ongoing | LiveBirth | Stillbirth | Miscarriage | Abortion

  function OutcomeCode(o: PregnancyOutcome): string
  {
    match o
    case Ongoing => "ongoing"
    case LiveBirth => "live_birth"
    case Stillbirth => "stillbirth"
    case Miscarriage => "miscarriage"
    case Abortion => "abortion"
  }

  function ParseOutcome(s: string): (r: Option<PregnancyOutcome>)
    ensures r.Some? <==> s in {"ongoing", "live_birth", "stillbirth", "miscarriage", "abortion"}
    ensures r.Some? ==> OutcomeCode(r.value) == s
  {
    if s == "ongoing" then Some(Ongoing)
    else if s == "live_birth" then Some(LiveBirth)
    else if s == "stillbirth" then Some(Stillbirth)
    else if s == "miscarriage" then Some(Miscarriage)
    else if s == "abortion" then Some(Abortion)
    else None
  }

  /** Many per woman, told apart by the pregnancy number. The gestation age
      is nullable and may be 0. */
  datatype PregnancyReport = PregnancyReport(
    pregnantWoman: nat,
    pregnancyNumber: nat,
    lastMenstrualPeriod: Date,
    expectedDueDate: Date,
    ageOfGestationWeeks: Option<nat>,
    highRiskPregnancy: bool,
    numberOfPrenatalVisits: nat,
    tetanusToxoidDoses: nat,
    pregnancyOutcome: PregnancyOutcome,
    isActive: bool)

  /** A pregnancy report as first saved: outcome 'ongoing', active, not high
      risk, no visits or doses yet. */
  function NewPregnancyReport(woman: nat, number: nat, lmp: Date, edd: Date, weeks: Option<nat>): (r: PregnancyReport)
    ensures r.pregnantWoman == woman && r.pregnancyNumber == number
    ensures r.lastMenstrualPeriod == lmp && r.expectedDueDate == edd && r.ageOfGestationWeeks == weeks
    ensures OutcomeCode(r.pregnancyOutcome) == "ongoing" && r.isActive
    ensures !r.highRiskPregnancy && r.numberOfPrenatalVisits == 0 && r.tetanusToxoidDoses == 0
  {
    PregnancyReport(woman, number, lmp, edd, weeks, false, 0, 0, Ongoing, true)
  }

  const FirstTrimester := "1st Trimester"
  const SecondTrimester := "2nd Trimester"
  const ThirdTrimester := "3rd Trimester"
  const UnknownTrimester := "Unknown"

  /** The four outcomes of `trimester`, before they are spelled out. */
  datatype Stage = FirstStage | SecondStage | ThirdStage | UnknownStage

  function StageLabel(st: Stage): string
  {
    match st
    case FirstStage => FirstTrimester
    case SecondStage => SecondTrimester
    case ThirdStage => ThirdTrimester
    case UnknownStage => UnknownTrimester
  }

  /** Different stages are spelled differently. */
  lemma StageLabelInjective(a: Stage, b: Stage)
    ensures StageLabel(a) == StageLabel(b) <==> a == b
  {
    assert FirstTrimester[0] == '1' && SecondTrimester[0] == '2' && ThirdTrimester[0] == '3';
    assert UnknownTrimester[0] == 'U';
  }

  /** The gestation age read as a truth value: absent and 0 both count as false. */
  predicate HasGestationAge(p: PregnancyReport)
  {
    p.ageOfGestationWeeks.Some? && p.ageOfGestationWeeks.value != 0
  }

  /** The branch `trimester` takes: 12 weeks or fewer is the first, up to 28
      the second, after that the third; without a (truthy) gestation age it
      is unknown. */
  function StageOf(p: PregnancyReport): Stage
  {
    if HasGestationAge(p) then
      if p.ageOfGestationWeeks.value <= 12 then FirstStage
      else if p.ageOfGestationWeeks.value <= 28 then SecondStage
      else ThirdStage
    else UnknownStage
  }

  /** `trimester`: the label of the branch taken. */
  function Trimester(p: PregnancyReport): (t: string)
    ensures t in {FirstTrimester, SecondTrimester, ThirdTrimester, UnknownTrimester}
  {
    StageLabel(StageOf(p))
  }

  /** Which gestation ages land in which label: 1 to 12 weeks, 13 to 28, 29
      and over, and the rest (absent or 0 weeks). */
  lemma TrimesterRanges(p: PregnancyReport)
    ensures Trimester(p) == FirstTrimester <==>
              p.ageOfGestationWeeks.Some? && 1 <= p.ageOfGestationWeeks.value <= 12
    ensures Trimester(p) == SecondTrimester <==>
              p.ageOfGestationWeeks.Some? && 13 <= p.ageOfGestationWeeks.value <= 28
    ensures Trimester(p) == ThirdTrimester <==>
              p.ageOfGestationWeeks.Some? && 29 <= p.ageOfGestationWeeks.value
    ensures Trimester(p) == UnknownTrimester <==>
              p.ageOfGestationWeeks == None || p.ageOfGestationWeeks == Some(0)
  {
    StageLabelInjective(StageOf(p), FirstStage);
    StageLabelInjective(StageOf(p), SecondStage);
    StageLabelInjective(StageOf(p), ThirdStage);
    StageLabelInjective(StageOf(p), UnknownStage);
  }

  /** The boundary weeks: 0 is unknown, 12 first, 13 and 28 second, 29 third. */
  lemma TrimesterBoundaries(p: PregnancyReport)
    ensures Trimester(p.(ageOfGestationWeeks := None)) == UnknownTrimester
    ensures Trimester(p.(ageOfGestationWeeks := Some(0))) == UnknownTrimester
    ensures Trimester(p.(ageOfGestationWeeks := Some(1))) == FirstTrimester
    ensures Trimester(p.(ageOfGestationWeeks := Some(12))) == FirstTrimester
    ensures Trimester(p.(ageOfGestationWeeks := Some(13))) == SecondTrimester
    ensures Trimester(p.(ageOfGestationWeeks := Some(28))) == SecondTrimester
    ensures Trimester(p.(ageOfGestationWeeks := Some(29))) == ThirdTrimester
  {
  }

  // ---------------------------------------------------------------- health reports

  datatype HealthReportType = RoutineCheckup | Immunization | Illness | Injury | FollowUp | Referral

  function ReportTypeCode(t: HealthReportType): string
  {
    match t
    case RoutineCheckup => "routine_checkup"
    case Immunization => "immunization"
    case Illness => "illness"
    case Injury => "injury"
    case FollowUp => "follow_up"
    case Referral => "referral"
  }

  function ParseReportType(s: string): (r: Option<HealthReportType>)
    ensures r.Some? <==> s in {"routine_checkup", "immunization", "illness", "injury", "follow_up", "referral"}
    ensures r.Some? ==> ReportTypeCode(r.value) == s
  {
    if s == "routine_checkup" then Some(RoutineCheckup)
    else if s == "immunization" then Some(Immunization)
    else if s == "illness" then Some(Illness)
    else if s == "injury" then Some(Injury)
    else if s == "follow_up" then Some(FollowUp)
    else if s == "referral" then Some(Referral)
    else None
  }

  /** Many per resident. */
  datatype HealthReport = HealthReport(
    resident: nat,
    reportType: HealthReportType,
    followUpNeeded: bool,
    reportDate: Date)

  /** A health report as first saved: dated today, no follow-up needed. */
  function NewHealthReport(resident: nat, reportType: HealthReportType, today: Date): (r: HealthReport)
    ensures r.resident == resident && r.reportType == reportType
    ensures r.reportDate == today && !r.followUpNeeded
  {
    HealthReport(resident, reportType, false, today)
  }

  /** Every stored code of a choice field is one of its declared choices.
      Choices are typed as enumerations, so this holds by construction; its
      purpose is to pin each code string to the model's choice tuples. */
  lemma CodesInChoiceSets(m: MobilityStatus, b: BusinessType, o: PregnancyOutcome, t: HealthReportType, p: PensionSource)
    ensures MobilityCode(m) in {"independent", "assisted", "wheelchair", "bedridden"}
    ensures BusinessTypeCode(b) in {"sari_sari", "carenderia", "both", "other"}
    ensures OutcomeCode(o) in {"ongoing", "live_birth", "stillbirth", "miscarriage", "abortion"}
    ensures ReportTypeCode(t) in {"routine_checkup", "immunization", "illness", "injury", "follow_up", "referral"}
    ensures PensionCode(p) in {"sss", "gsis", "private", "none", "other"}
  {
  }
}
