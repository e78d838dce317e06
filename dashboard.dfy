/** The read-only views of the dashboard: the summary counts, the zone
    histogram, the four report pages and the searchable resident directory,
    each a function of a snapshot of the tables (and of today's date). */
module Dashboard {
  import opened Wrappers
  import opened Dates
  import opened Text
  import opened Seqs
  import opened Residents
  import opened Reports
  import opened Registry

  // ---------------------------------------------------------------- resident filters

  predicate ActiveResident(r: Resident) { r.isActive }

  function WithGender(code: string): Resident -> bool
  {
    (r: Resident) => r.isActive && GenderCode(r.gender) == code
  }

  predicate ActivePwd(r: Resident) { r.isPwd && r.isActive }
  predicate ActiveSeniorCitizen(r: Resident) { r.isSeniorCitizen && r.isActive }
  predicate Active4PsBeneficiary(r: Resident) { r.is4PsBeneficiary && r.isActive }
  predicate ActiveSoloParent(r: Resident) { r.isSoloParent && r.isActive }

  function ZoneOf(r: Resident): string { r.zone }
  function CivilStatusOf(r: Resident): string { CivilStatusCode(r.civilStatus) }
  function EmploymentOf(r: Resident): string { EmploymentCode(r.employmentStatus) }

  // ---------------------------------------------------------------- age bands

  /** The band cut-offs are 18 and 60 years of 365 days each, not calendar
      years: they are not the same as `age` crossing 18 or 60. */
  const ChildDays: nat := 18 * 365
  const SeniorDays: nat := 60 * 365

  /** Born after the 18-year cut-off. */
  function ChildBand(cut18: Date): Resident -> bool
  {
    (r: Resident) => r.isActive && Before(cut18, r.dateOfBirth)
  }

  /** Born on or before the 18-year cut-off and after the 60-year one. */
  function AdultBand(cut18: Date, cut60: Date): Resident -> bool
  {
    (r: Resident) => r.isActive && NotAfter(r.dateOfBirth, cut18) && Before(cut60, r.dateOfBirth)
  }

  /** Born on or before the 60-year cut-off. */
  function SeniorBand(cut60: Date): Resident -> bool
  {
    (r: Resident) => r.isActive && NotAfter(r.dateOfBirth, cut60)
  }

  /** With the 60-year cut-off strictly before the 18-year one, every active
      resident falls in exactly one band. */
  lemma AgeBandsPartition(rs: seq<Resident>, cut18: Date, cut60: Date)
    requires Before(cut60, cut18)
    ensures Count(rs, ChildBand(cut18)) + Count(rs, AdultBand(cut18, cut60)) + Count(rs, SeniorBand(cut60))
            == Count(rs, ActiveResident)
  {
    forall r: Resident
      ensures !(ChildBand(cut18)(r) && SeniorBand(cut60)(r))
    {
      DateOrder(r.dateOfBirth, cut60, cut18);
      DateOrder(cut60, cut18, r.dateOfBirth);
    }
    CountPartition3(rs, ActiveResident, ChildBand(cut18), AdultBand(cut18, cut60), SeniorBand(cut60));
  }

  // ---------------------------------------------------------------- summary counts

  /** The single-number statistics of the dashboard. */
  datatype Headcounts = Headcounts(
    totalResidents: nat,
    totalHouseholds: nat,
    maleResidents: nat,
    femaleResidents: nat,
    children: nat,
    adults: nat,
    seniors: nat,
    pwdCount: nat,
    seniorCitizens: nat,
    fourPsBeneficiaries: nat,
    soloParents: nat,
    seniorReports: nat,
    activeBusinesses: nat,
    activeFourPs: nat,
    activePregnancies: nat,
    recentHealthReports: nat)

  predicate ActiveSeniorReport(s: SeniorCitizenReport) { s.isActive }
  predicate ActiveBusiness(b: SariSariStoreReport) { b.isActive }
  predicate ActiveFourPs(f: FourPsBeneficiaryReport) { f.isActive }
  predicate OngoingPregnancy(p: PregnancyReport) { p.pregnancyOutcome == Ongoing && p.isActive }

  /** Health reports dated on or after the cut-off. */
  function ReportedSince(cut: Date): HealthReport -> bool
  {
    (h: HealthReport) => NotAfter(cut, h.reportDate)
  }

  /** The counts of the dashboard: the active residents split by gender and by
      age band, the flag counts among them, and the active report counts. */
  function CountHeadcounts(t: Tables, today: Date): (h: Headcounts)
    requires Valid(today)
    ensures h.totalResidents <= |t.residents| && h.totalHouseholds == |t.households|
    ensures h.maleResidents + h.femaleResidents == h.totalResidents
    ensures h.children + h.adults + h.seniors == h.totalResidents
    ensures h.pwdCount <= h.totalResidents && h.seniorCitizens <= h.totalResidents
    ensures h.fourPsBeneficiaries <= h.totalResidents && h.soloParents <= h.totalResidents
    ensures h.seniorReports <= |t.seniorReports| && h.activeBusinesses <= |t.businessReports|
    ensures h.activeFourPs <= |t.fourPsReports| && h.activePregnancies <= |t.pregnancyReports|
    ensures h.recentHealthReports <= |t.healthReports|
  {
    var rs := t.residents;
    var cut18 := SubDays(today, ChildDays);
    var cut60 := SubDays(today, SeniorDays);
    SubDaysStrictlyDecreasing(today, ChildDays, SeniorDays);
    AgeBandsPartition(rs, cut18, cut60);
    CountPartition2(rs, ActiveResident, WithGender("M"), WithGender("F"));
    CountMonotone(rs, ActivePwd, ActiveResident);
    CountMonotone(rs, ActiveSeniorCitizen, ActiveResident);
    CountMonotone(rs, Active4PsBeneficiary, ActiveResident);
    CountMonotone(rs, ActiveSoloParent, ActiveResident);
    Headcounts(
      Count(rs, ActiveResident),
      |t.households|,
      Count(rs, WithGender("M")),
      Count(rs, WithGender("F")),
      Count(rs, ChildBand(cut18)),
      Count(rs, AdultBand(cut18, cut60)),
      Count(rs, SeniorBand(cut60)),
      Count(rs, ActivePwd),
      Count(rs, ActiveSeniorCitizen),
      Count(rs, Active4PsBeneficiary),
      Count(rs, ActiveSoloParent),
      Count(t.seniorReports, ActiveSeniorReport),
      Count(t.businessReports, ActiveBusiness),
      Count(t.fourPsReports, ActiveFourPs),
      Count(t.pregnancyReports, OngoingPregnancy),
      Count(t.healthReports, ReportedSince(SubDays(today, 7))))
  }

  /** A health report dated exactly seven days ago is recent; one dated eight
      days ago is not. */
  lemma RecentWindow(h: HealthReport, today: Date)
    requires Valid(today)
    ensures h.reportDate == SubDays(today, 7) ==> ReportedSince(SubDays(today, 7))(h)
    ensures h.reportDate == SubDays(today, 8) ==> !ReportedSince(SubDays(today, 7))(h)
  {
    DateOrder(h.reportDate, h.reportDate, h.reportDate);
    SubDaysStrictlyDecreasing(today, 7, 8);
  }

  // ---------------------------------------------------------------- zone histogram

  /** One entry of `zone_distribution`: the percentage is kept exact. */
  datatype ZoneShare = ZoneShare(zone: string, count: nat, percentage: real)

  /** `count * 100 / total`, or 0 when there is nobody to divide by. */
  function Percentage(count: nat, total: nat): (p: real)
    ensures total == 0 ==> p == 0.0
    ensures total > 0 ==> p * total as real == count as real * 100.0
    ensures count <= total ==> 0.0 <= p <= 100.0
  {
    if total > 0 then count as real * 100.0 / total as real else 0.0
  }

  /** The per-zone counts of the active residents, zones ascending. */
  function ZoneTally(rs: seq<Resident>): (b: seq<Bucket>)
    ensures Ascending(b)
    ensures forall z :: z in Labels(b) <==> exists r :: r in rs && r.isActive && r.zone == z
    ensures forall i :: 0 <= i < |b| ==> b[i].count >= 1
    ensures forall i :: 0 <= i < |b| ==> b[i].count == Count(Filter(rs, ActiveResident), InZone(b[i].key))
    ensures Sum(Totals(b)) == Count(rs, ActiveResident)
  {
    var active := Filter(rs, ActiveResident);
    var zones := Project(active, ZoneOf);
    forall z ensures z in zones <==> exists r :: r in rs && r.isActive && r.zone == z {
      ProjectMembers(active, ZoneOf, z);
    }
    var b := Tally(zones);
    forall i | 0 <= i < |b| ensures b[i].count == Count(active, InZone(b[i].key)) {
      TallyCounts(zones, i);
      KeyCountIsMultiplicity(active, ZoneOf, b[i].key, InZone(b[i].key));
    }
    b
  }

  /** The zone loop: one share per bucket, in bucket order. */
  method ZoneDistribution(raw: seq<Bucket>, total: nat) returns (shares: seq<ZoneShare>)
    ensures |shares| == |raw|
    ensures forall i :: 0 <= i < |raw| ==>
              shares[i] == ZoneShare(raw[i].key, raw[i].count, Percentage(raw[i].count, total))
  {
    shares := [];
    var i := 0;
    while i < |raw|
      invariant 0 <= i <= |raw| && |shares| == i
      invariant forall j :: 0 <= j < i ==>
                  shares[j] == ZoneShare(raw[j].key, raw[j].count, Percentage(raw[j].count, total))
    {
      var zone := raw[i];
      var percentage := if total > 0 then zone.count as real * 100.0 / total as real else 0.0;
      shares := shares + [ZoneShare(zone.key, zone.count, percentage)];
      i := i + 1;
    }
  }

  /** The percentages of the buckets, added up. */
  function PercentSum(b: seq<Bucket>, total: nat): real
  {
    if b == [] then 0.0 else Percentage(b[0].count, total) + PercentSum(b[1..], total)
  }

  /** The percentages of the buckets add up to the percentage of their
      summed counts. */
  lemma {:induction false} PercentSumOfCounts(b: seq<Bucket>, total: nat)
    ensures PercentSum(b, total) == Percentage(Sum(Totals(b)), total)
  {
    if b != [] {
      PercentSumOfCounts(b[1..], total);
      assert Totals(b)[1..] == Totals(b[1..]);
      PercentageAdditive(b[0].count, Sum(Totals(b[1..])), total);
    }
  }

  /** Percentages of the same total add like their counts. */
  lemma PercentageAdditive(x: nat, y: nat, total: nat)
    ensures Percentage(x, total) + Percentage(y, total) == Percentage(x + y, total)
  {
    if total > 0 {
      ScaledParts(Percentage(x, total), Percentage(y, total), Percentage(x + y, total),
                  total as real, x as real, y as real, (x + y) as real);
    }
  }

  /** Parts scaled to a hundred by the same factor add up to the scaled whole. */
  lemma ScaledParts(px: real, py: real, pz: real, t: real, x: real, y: real, z: real)
    requires t > 0.0 && z == x + y
    requires px * t == x * 100.0 && py * t == y * 100.0 && pz * t == z * 100.0
    ensures px + py == pz
  {
    Distribute(px, py, t);
    CancelFactor(px + py, pz, t);
  }

  /** Over the whole histogram the percentages add up to exactly 100, and with
      no active resident there is no zone at all. */
  lemma ZonePercentagesTotal(rs: seq<Resident>)
    ensures Count(rs, ActiveResident) > 0 ==> PercentSum(ZoneTally(rs), Count(rs, ActiveResident)) == 100.0
    ensures Count(rs, ActiveResident) == 0 ==> ZoneTally(rs) == []
  {
    var total := Count(rs, ActiveResident);
    var b := ZoneTally(rs);
    if total > 0 {
      PercentsOfWhole(b, total);
    }
  }

  /** When the counts add up to the total, the percentages add up to 100. */
  lemma PercentsOfWhole(b: seq<Bucket>, total: nat)
    requires total > 0 && Sum(Totals(b)) == total
    ensures PercentSum(b, total) == 100.0
  {
    PercentSumOfCounts(b, total);
    CancelFactor(Percentage(total, total), 100.0, total as real);
  }

  lemma Distribute(x: real, y: real, t: real)
    ensures (x + y) * t == x * t + y * t
  {
  }

  /** A non-zero factor cancels. */
  lemma CancelFactor(x: real, y: real, t: real)
    requires t > 0.0 && x * t == y * t
    ensures x == y
  {
  }

  /** What the dashboard shows. */
  datatype Overview = Overview(
    counts: Headcounts,
    zoneDistribution: seq<ZoneShare>,
    civilStatusDistribution: seq<Bucket>,
    employmentDistribution: seq<Bucket>)

  /** `dashboard_view`: the counts, then the zone histogram built by the zone
      loop from the same snapshot, then the two status histograms. */
  method DashboardView(t: Tables, today: Date) returns (o: Overview)
    requires Valid(today)
    ensures o.counts == CountHeadcounts(t, today)
    ensures |o.zoneDistribution| == |ZoneTally(t.residents)|
    ensures forall i :: 0 <= i < |o.zoneDistribution| ==>
              o.zoneDistribution[i].zone == ZoneTally(t.residents)[i].key &&
              o.zoneDistribution[i].count == ZoneTally(t.residents)[i].count &&
              o.zoneDistribution[i].percentage == Percentage(o.zoneDistribution[i].count, o.counts.totalResidents)
    ensures forall i :: 0 <= i < |o.zoneDistribution| ==>
              o.zoneDistribution[i].count == Count(Filter(t.residents, ActiveResident), InZone(o.zoneDistribution[i].zone))
    ensures forall i, j :: 0 <= i < j < |o.zoneDistribution| ==>
              Less(o.zoneDistribution[i].zone, o.zoneDistribution[j].zone)
    ensures o.civilStatusDistribution == Tally(Project(Filter(t.residents, ActiveResident), CivilStatusOf))
    ensures o.employmentDistribution == Tally(Project(Filter(t.residents, ActiveResident), EmploymentOf))
    ensures Sum(Totals(o.civilStatusDistribution)) == o.counts.totalResidents
    ensures Sum(Totals(o.employmentDistribution)) == o.counts.totalResidents
  {
    var counts := CountHeadcounts(t, today);
    var active := Filter(t.residents, ActiveResident);
    var raw := ZoneTally(t.residents);
    var zones := ZoneDistribution(raw, counts.totalResidents);
    o := Overview(counts, zones, Tally(Project(active, CivilStatusOf)), Tally(Project(active, EmploymentOf)));
  }

  // ---------------------------------------------------------------- senior citizens report

  datatype SeniorView = SeniorView(
    seniorCitizens: seq<Resident>,
    seniorReports: seq<SeniorCitizenReport>,
    totalSeniors: nat,
    seniorsWithReports: nat,
    seniorsNeedingAssessment: nat)

  /** `max(0, total - withReports)`. */
  function NeedingAssessment(total: int, withReports: int): (n: nat)
    ensures n >= total - withReports
    ensures total >= withReports ==> n == total - withReports
    ensures total <= withReports ==> n == 0
  {
    if total - withReports > 0 then total - withReports else 0
  }

  /** `senior_citizens_report`: the active senior citizens in name order, the
      active senior reports, and how many seniors still lack a report. */
  function SeniorCitizensReport(t: Tables): (v: SeniorView)
    ensures forall r :: r in v.seniorCitizens <==> r in t.residents && r.isSeniorCitizen && r.isActive
    ensures multiset(v.seniorCitizens) == multiset(Filter(t.residents, ActiveSeniorCitizen))
    ensures SortedBy(v.seniorCitizens, NameOrder)
    ensures forall s :: s in v.seniorReports <==> s in t.seniorReports && s.isActive
    ensures v.seniorReports == Filter(t.seniorReports, ActiveSeniorReport)
    ensures v.totalSeniors == Count(t.residents, ActiveSeniorCitizen)
    ensures v.seniorsWithReports == Count(t.seniorReports, ActiveSeniorReport)
    ensures v.totalSeniors == |v.seniorCitizens| && v.seniorsWithReports == |v.seniorReports|
    ensures v.seniorsNeedingAssessment + v.seniorsWithReports >= v.totalSeniors
    ensures v.seniorsNeedingAssessment <= v.totalSeniors
    ensures v.totalSeniors >= v.seniorsWithReports ==>
              v.seniorsNeedingAssessment == v.totalSeniors - v.seniorsWithReports
  {
    NameOrderTotal();
    var seniors := Sort(Filter(t.residents, ActiveSeniorCitizen), NameOrder);
    var reports := Filter(t.seniorReports, ActiveSeniorReport);
    SeniorView(seniors, reports, |seniors|, |reports|, NeedingAssessment(|seniors|, |reports|))
  }

  // ---------------------------------------------------------------- businesses report

  datatype BusinessView = BusinessView(
    businesses: seq<SariSariStoreReport>,
    totalBusinesses: nat,
    sariSariCount: nat,
    carenderiaCount: nat,
    bothCount: nat,
    sanitationCompliant: nat,
    fireSafetyCompliant: nat)

  function OfType(k: BusinessType): SariSariStoreReport -> bool
  {
    (b: SariSariStoreReport) => b.businessType == k
  }

  predicate Sanitary(b: SariSariStoreReport) { b.hasProperSanitation }
  predicate FireSafe(b: SariSariStoreReport) { b.hasFireSafetyMeasures }

  /** The single-query forms of the narrowed counts: active and of type k,
      active and sanitary, active and fire-safe. */
  function ActiveOfType(k: BusinessType): SariSariStoreReport -> bool
  {
    (b: SariSariStoreReport) => b.isActive && b.businessType == k
  }

  predicate ActiveSanitary(b: SariSariStoreReport) { b.isActive && b.hasProperSanitation }
  predicate ActiveFireSafe(b: SariSariStoreReport) { b.isActive && b.hasFireSafetyMeasures }

  /** Every business has exactly one of the four types. */
  lemma {:induction false} TypeCountsCover(s: seq<SariSariStoreReport>)
    ensures Count(s, OfType(SariSari)) + Count(s, OfType(Carenderia)) + Count(s, OfType(Both))
            + Count(s, OfType(OtherFoodBusiness)) == |s|
    decreases |s|
  {
    if s != [] {
      TypeCountsCover(s[..|s| - 1]);
    }
  }

  /** `businesses_report`: the active businesses and their breakdowns. The
      three counted types leave out exactly the 'other' businesses. */
  function BusinessesReport(t: Tables): (v: BusinessView)
    ensures forall b :: b in v.businesses <==> b in t.businessReports && b.isActive
    ensures v.businesses == Filter(t.businessReports, ActiveBusiness)
    ensures v.totalBusinesses == |v.businesses| == Count(t.businessReports, ActiveBusiness)
    ensures v.sariSariCount == Count(t.businessReports, ActiveOfType(SariSari))
    ensures v.carenderiaCount == Count(t.businessReports, ActiveOfType(Carenderia))
    ensures v.bothCount == Count(t.businessReports, ActiveOfType(Both))
    ensures v.sanitationCompliant == Count(t.businessReports, ActiveSanitary)
    ensures v.fireSafetyCompliant == Count(t.businessReports, ActiveFireSafe)
    ensures v.sariSariCount + v.carenderiaCount + v.bothCount
            + Count(v.businesses, OfType(OtherFoodBusiness)) == v.totalBusinesses
    ensures v.sariSariCount + v.carenderiaCount + v.bothCount <= v.totalBusinesses
    ensures v.sanitationCompliant <= v.totalBusinesses && v.fireSafetyCompliant <= v.totalBusinesses
  {
    var active := Filter(t.businessReports, ActiveBusiness);
    TypeCountsCover(active);
    FilterFilter(t.businessReports, ActiveBusiness, OfType(SariSari), ActiveOfType(SariSari));
    FilterFilter(t.businessReports, ActiveBusiness, OfType(Carenderia), ActiveOfType(Carenderia));
    FilterFilter(t.businessReports, ActiveBusiness, OfType(Both), ActiveOfType(Both));
    FilterFilter(t.businessReports, ActiveBusiness, Sanitary, ActiveSanitary);
    FilterFilter(t.businessReports, ActiveBusiness, FireSafe, ActiveFireSafe);
    BusinessView(active, |active|,
      Count(active, OfType(SariSari)), Count(active, OfType(Carenderia)), Count(active, OfType(Both)),
      Count(active, Sanitary), Count(active, FireSafe))
  }

  // ---------------------------------------------------------------- 4Ps report

  datatype FourPsView = FourPsView(
    beneficiaries: seq<FourPsBeneficiaryReport>,
    totalBeneficiaries: nat,
    educationCompliant: nat,
    healthCompliant: nat,
    fdsCompliant: nat)

  predicate EducationCompliant(f: FourPsBeneficiaryReport) { f.educationCompliance }
  predicate HealthCompliant(f: FourPsBeneficiaryReport) { f.healthCompliance }
  predicate FdsCompliant(f: FourPsBeneficiaryReport) { f.familyDevelopmentSessions }

  /** The single-query forms of the compliance counts. */
  predicate ActiveEducationCompliant(f: FourPsBeneficiaryReport) { f.isActive && f.educationCompliance }
  predicate ActiveHealthCompliant(f: FourPsBeneficiaryReport) { f.isActive && f.healthCompliance }
  predicate ActiveFdsCompliant(f: FourPsBeneficiaryReport) { f.isActive && f.familyDevelopmentSessions }

  /** `fourps_report`: the active beneficiaries and, among them, how many meet
      each of the three conditions. */
  function FourPsReport(t: Tables): (v: FourPsView)
    ensures forall f :: f in v.beneficiaries <==> f in t.fourPsReports && f.isActive
    ensures v.beneficiaries == Filter(t.fourPsReports, ActiveFourPs)
    ensures v.totalBeneficiaries == |v.beneficiaries| == Count(t.fourPsReports, ActiveFourPs)
    ensures v.educationCompliant == Count(t.fourPsReports, ActiveEducationCompliant)
    ensures v.healthCompliant == Count(t.fourPsReports, ActiveHealthCompliant)
    ensures v.fdsCompliant == Count(t.fourPsReports, ActiveFdsCompliant)
    ensures v.educationCompliant <= v.totalBeneficiaries
    ensures v.healthCompliant <= v.totalBeneficiaries
    ensures v.fdsCompliant <= v.totalBeneficiaries
  {
    var active := Filter(t.fourPsReports, ActiveFourPs);
    FilterFilter(t.fourPsReports, ActiveFourPs, EducationCompliant, ActiveEducationCompliant);
    FilterFilter(t.fourPsReports, ActiveFourPs, HealthCompliant, ActiveHealthCompliant);
    FilterFilter(t.fourPsReports, ActiveFourPs, FdsCompliant, ActiveFdsCompliant);
    FourPsView(active, |active|,
      Count(active, EducationCompliant), Count(active, HealthCompliant), Count(active, FdsCompliant))
  }

  /** The totals on the report pages are the counts the dashboard shows for
      the same snapshot. */
  lemma ReportPagesAgree(t: Tables, today: Date)
    requires Valid(today)
    ensures SeniorCitizensReport(t).totalSeniors == CountHeadcounts(t, today).seniorCitizens
    ensures SeniorCitizensReport(t).seniorsWithReports == CountHeadcounts(t, today).seniorReports
    ensures BusinessesReport(t).totalBusinesses == CountHeadcounts(t, today).activeBusinesses
    ensures FourPsReport(t).totalBeneficiaries == CountHeadcounts(t, today).activeFourPs
  {
  }

  // ---------------------------------------------------------------- pregnancy report

  datatype PregnancyView = PregnancyView(
    activePregnancies: seq<PregnancyReport>,
    dueSoon: seq<bool>,
    totalPregnancies: nat,
    highRiskPregnancies: nat,
    firstTrimester: seq<PregnancyReport>,
    secondTrimester: seq<PregnancyReport>,
    thirdTrimester: seq<PregnancyReport>,
    upcomingDeliveries: seq<PregnancyReport>)

  predicate HighRisk(p: PregnancyReport) { p.highRiskPregnancy }

  /** Due on or before the limit (overdue pregnancies included). */
  function DueBy(limit: Date): PregnancyReport -> bool
  {
    (p: PregnancyReport) => NotAfter(p.expectedDueDate, limit)
  }

  function InStage(st: Stage): PregnancyReport -> bool
  {
    (p: PregnancyReport) => StageOf(p) == st
  }

  /** Sorting by stage is sorting by the `trimester` label. */
  lemma InStageIsTrimester(p: PregnancyReport, st: Stage)
    ensures InStage(st)(p) <==> Trimester(p) == StageLabel(st)
  {
    StageLabelInjective(StageOf(p), st);
  }

  /** Orders pregnancies by expected due date. */
  predicate DueOrder(a: PregnancyReport, b: PregnancyReport)
  {
    NotAfter(a.expectedDueDate, b.expectedDueDate)
  }

  lemma DueOrderTotal()
    ensures TotalPreorder(DueOrder)
  {
    forall x: PregnancyReport, y: PregnancyReport, z: PregnancyReport
      ensures DueOrder(x, y) || DueOrder(y, x)
      ensures DueOrder(x, y) && DueOrder(y, z) ==> DueOrder(x, z)
    {
      DateOrder(x.expectedDueDate, y.expectedDueDate, z.expectedDueDate);
      DateOrder(z.expectedDueDate, y.expectedDueDate, x.expectedDueDate);
      DateOrder(y.expectedDueDate, x.expectedDueDate, z.expectedDueDate);
    }
  }

  /** `pregnancy_report`: the ongoing active pregnancies (in the order the
      query gives them), the `due_soon` flag of each, the three trimester lists
      filled by the loop, and the deliveries due within 30 days by due date. */
  method PregnancyReportView(pregnancies: seq<PregnancyReport>, today: Date) returns (v: PregnancyView)
    requires Valid(today)
    ensures v.activePregnancies == Filter(pregnancies, OngoingPregnancy)
    ensures v.totalPregnancies == |v.activePregnancies|
    ensures v.highRiskPregnancies == Count(v.activePregnancies, HighRisk)
    ensures |v.dueSoon| == |v.activePregnancies|
    ensures forall i :: 0 <= i < |v.dueSoon| ==>
              (v.dueSoon[i] <==> NotAfter(v.activePregnancies[i].expectedDueDate, AddDays(today, 30)))
    ensures v.firstTrimester == Filter(v.activePregnancies, InStage(FirstStage))
    ensures v.secondTrimester == Filter(v.activePregnancies, InStage(SecondStage))
    ensures v.thirdTrimester == Filter(v.activePregnancies, InStage(ThirdStage))
    ensures forall p :: p in v.upcomingDeliveries <==>
              p in v.activePregnancies && NotAfter(p.expectedDueDate, AddDays(today, 30))
    ensures multiset(v.upcomingDeliveries) == multiset(Filter(v.activePregnancies, DueBy(AddDays(today, 30))))
    ensures SortedBy(v.upcomingDeliveries, DueOrder)
  {
    var active := Filter(pregnancies, OngoingPregnancy);
    var nextMonth := AddDays(today, 30);
    var dueSoon, first, second, third := ClassifyPregnancies(active, nextMonth);
    DueOrderTotal();
    var upcoming := Sort(Filter(active, DueBy(nextMonth)), DueOrder);
    v := PregnancyView(active, dueSoon, |active|, Count(active, HighRisk), first, second, third, upcoming);
  }

  /** The loop of `pregnancy_report`: sets `due_soon` on each pregnancy and
      appends it to the list of its trimester, if it has a gestation age. */
  method ClassifyPregnancies(active: seq<PregnancyReport>, nextMonth: Date)
    returns (dueSoon: seq<bool>, first: seq<PregnancyReport>, second: seq<PregnancyReport>, third: seq<PregnancyReport>)
    ensures |dueSoon| == |active|
    ensures forall j :: 0 <= j < |active| ==> (dueSoon[j] <==> NotAfter(active[j].expectedDueDate, nextMonth))
    ensures first == Filter(active, InStage(FirstStage))
    ensures second == Filter(active, InStage(SecondStage))
    ensures third == Filter(active, InStage(ThirdStage))
  {
    dueSoon, first, second, third := [], [], [], [];
    var i := 0;
    while i < |active|
      invariant 0 <= i <= |active| && |dueSoon| == i
      invariant forall j :: 0 <= j < i ==> (dueSoon[j] <==> NotAfter(active[j].expectedDueDate, nextMonth))
      invariant first == InStagePrefix(active, i, FirstStage)
      invariant second == InStagePrefix(active, i, SecondStage)
      invariant third == InStagePrefix(active, i, ThirdStage)
    {
      var pregnancy := active[i];
      dueSoon := dueSoon + [NotAfter(pregnancy.expectedDueDate, nextMonth)];
      if pregnancy.ageOfGestationWeeks.Some? && pregnancy.ageOfGestationWeeks.value != 0 {
        if pregnancy.ageOfGestationWeeks.value <= 12 {
          first := first + [pregnancy];
        } else if pregnancy.ageOfGestationWeeks.value <= 28 {
          second := second + [pregnancy];
        } else {
          third := third + [pregnancy];
        }
      }
      i := i + 1;
    }
    InStagePrefixWhole(active, FirstStage);
    InStagePrefixWhole(active, SecondStage);
    InStagePrefixWhole(active, ThirdStage);
  }

  /** The pregnancies among the first n that are at the given stage: the
      loop's lists after n rounds. */
  function InStagePrefix(s: seq<PregnancyReport>, n: nat, st: Stage): seq<PregnancyReport>
    requires n <= |s|
  {
    if n == 0 then []
    else InStagePrefix(s, n - 1, st) + (if StageOf(s[n - 1]) == st then [s[n - 1]] else [])
  }

  lemma {:induction false} InStagePrefixIsFilter(s: seq<PregnancyReport>, n: nat, st: Stage)
    requires n <= |s|
    ensures InStagePrefix(s, n, st) == Filter(s[..n], InStage(st))
  {
    if n > 0 {
      InStagePrefixIsFilter(s, n - 1, st);
      FilterPrefixStep(s, n - 1, InStage(st));
    }
  }

  lemma InStagePrefixWhole(s: seq<PregnancyReport>, st: Stage)
    ensures InStagePrefix(s, |s|, st) == Filter(s, InStage(st))
  {
    InStagePrefixIsFilter(s, |s|, st);
    assert s[..|s|] == s;
  }

  /** The trimester lists of any pregnancy list hold the pregnancies whose
      `trimester` is their label, share no pregnancy, leave out those without
      a (non-zero) gestation age, and between them hold all the others. */
  lemma TrimesterListsPartition(ps: seq<PregnancyReport>)
    ensures forall p :: p in Filter(ps, InStage(FirstStage)) <==> p in ps && Trimester(p) == FirstTrimester
    ensures forall p :: p in Filter(ps, InStage(SecondStage)) <==> p in ps && Trimester(p) == SecondTrimester
    ensures forall p :: p in Filter(ps, InStage(ThirdStage)) <==> p in ps && Trimester(p) == ThirdTrimester
    ensures forall p :: !(p in Filter(ps, InStage(FirstStage)) && p in Filter(ps, InStage(SecondStage)))
    ensures forall p :: !(p in Filter(ps, InStage(FirstStage)) && p in Filter(ps, InStage(ThirdStage)))
    ensures forall p :: !(p in Filter(ps, InStage(SecondStage)) && p in Filter(ps, InStage(ThirdStage)))
    ensures forall p :: p in ps && !HasGestationAge(p) ==>
              p !in Filter(ps, InStage(FirstStage)) &&
              p !in Filter(ps, InStage(SecondStage)) &&
              p !in Filter(ps, InStage(ThirdStage))
    ensures Count(ps, InStage(FirstStage)) + Count(ps, InStage(SecondStage))
            + Count(ps, InStage(ThirdStage)) == Count(ps, HasGestationAge)
  {
    forall p: PregnancyReport
      ensures InStage(FirstStage)(p) <==> Trimester(p) == FirstTrimester
      ensures InStage(SecondStage)(p) <==> Trimester(p) == SecondTrimester
      ensures InStage(ThirdStage)(p) <==> Trimester(p) == ThirdTrimester
    {
      InStageIsTrimester(p, FirstStage);
      InStageIsTrimester(p, SecondStage);
      InStageIsTrimester(p, ThirdStage);
    }
    CountPartition3(ps, HasGestationAge, InStage(FirstStage), InStage(SecondStage), InStage(ThirdStage));
  }

  /** The due-soon window is 30 days wide: a due date k days from today is
      flagged exactly when k is at most 30, and past due dates are flagged. */
  lemma DueSoonWindow(p: PregnancyReport, today: Date, k: nat)
    requires Valid(today)
    ensures p.expectedDueDate == AddDays(today, k) ==> (DueBy(AddDays(today, 30))(p) <==> k <= 30)
    ensures Before(p.expectedDueDate, today) ==> DueBy(AddDays(today, 30))(p)
  {
    var limit := AddDays(today, 30);
    if p.expectedDueDate == AddDays(today, k) {
      if k < 30 {
        AddDaysStrictlyIncreasing(today, k, 30);
        DateOrder(limit, p.expectedDueDate, limit);
      } else if k > 30 {
        AddDaysStrictlyIncreasing(today, 30, k);
      } else {
        DateOrder(limit, limit, limit);
      }
    }
    DateOrder(p.expectedDueDate, today, limit);
    DateOrder(limit, p.expectedDueDate, today);
  }

  // ---------------------------------------------------------------- resident directory

  /** A query parameter counts only when it is present and non-empty. */
  predicate Given(o: Option<string>)
  {
    o.Some? && o.value != ""
  }

  /** The search matches first, last or middle name or contact number,
      ignoring case. */
  predicate MatchesSearch(r: Resident, q: string)
  {
    IContains(r.firstName, q) || IContains(r.lastName, q) ||
    IContains(r.middleName, q) || IContains(r.contactNumber, q)
  }

  function SearchFor(q: string): Resident -> bool
  {
    (r: Resident) => MatchesSearch(r, q)
  }

  function InZone(z: string): Resident -> bool
  {
    (r: Resident) => r.zone == z
  }

  function GenderIs(g: string): Resident -> bool
  {
    (r: Resident) => GenderCode(r.gender) == g
  }

  datatype DirectoryView = DirectoryView(residents: seq<Resident>, zones: seq<string>)

  /** One optional `.filter(p)` of the directory: applied only when its
      parameter is given; the name order survives it. */
  function Narrow(s: seq<Resident>, given: bool, p: Resident -> bool): (r: seq<Resident>)
    ensures given ==> r == Filter(s, p)
    ensures !given ==> r == s
    ensures forall x :: x in r <==> x in s && (given ==> p(x))
    ensures forall x :: multiset(r)[x] == if given ==> p(x) then multiset(s)[x] else 0
    ensures SortedBy(s, NameOrder) ==> SortedBy(r, NameOrder)
  {
    if given then
      (forall x ensures multiset(Filter(s, p))[x] == if p(x) then multiset(s)[x] else 0 {
         FilterMultiplicity(s, p, x);
       }
       if SortedBy(s, NameOrder) then FilterSorted(s, NameOrder, p, NameOrder); Filter(s, p) else Filter(s, p))
    else s
  }

  /** A resident passes every parameter that is given. */
  predicate Selected(r: Resident, search: Option<string>, zone: Option<string>, gender: Option<string>)
  {
    (Given(search) ==> MatchesSearch(r, search.value)) &&
    (Given(zone) ==> r.zone == zone.value) &&
    (Given(gender) ==> GenderCode(r.gender) == gender.value)
  }

  /** The residents the directory lists: active and passing every given parameter. */
  function Listable(search: Option<string>, zone: Option<string>, gender: Option<string>): Resident -> bool
  {
    (r: Resident) => r.isActive && Selected(r, search, zone, gender)
  }

  lemma NarrowedMembers(rs: seq<Resident>, all: seq<Resident>, searched: seq<Resident>, zoned: seq<Resident>,
                        gendered: seq<Resident>, search: Option<string>, zone: Option<string>, gender: Option<string>)
    requires forall r :: r in all <==> r in rs && r.isActive
    requires searched == Narrow(all, Given(search), SearchFor(if Given(search) then search.value else ""))
    requires zoned == Narrow(searched, Given(zone), InZone(if Given(zone) then zone.value else ""))
    requires gendered == Narrow(zoned, Given(gender), GenderIs(if Given(gender) then gender.value else ""))
    ensures forall r :: r in gendered <==> r in rs && r.isActive && Selected(r, search, zone, gender)
  {
    forall r
      ensures r in gendered <==> r in rs && r.isActive && Selected(r, search, zone, gender)
    {
      assert r in searched <==> r in all && (Given(search) ==> MatchesSearch(r, search.value));
      assert r in zoned <==> r in searched && (Given(zone) ==> r.zone == zone.value);
    }
  }

  /** The three optional filters keep every copy of a listable resident of
      the active rows and no copy of anyone else. */
  lemma NarrowedCopies(rs: seq<Resident>, all: seq<Resident>, searched: seq<Resident>, zoned: seq<Resident>,
                       gendered: seq<Resident>, search: Option<string>, zone: Option<string>, gender: Option<string>)
    requires multiset(all) == multiset(Filter(rs, ActiveResident))
    requires searched == Narrow(all, Given(search), SearchFor(if Given(search) then search.value else ""))
    requires zoned == Narrow(searched, Given(zone), InZone(if Given(zone) then zone.value else ""))
    requires gendered == Narrow(zoned, Given(gender), GenderIs(if Given(gender) then gender.value else ""))
    ensures multiset(gendered) == multiset(Filter(rs, Listable(search, zone, gender)))
  {
    forall r
      ensures multiset(gendered)[r] == multiset(Filter(rs, Listable(search, zone, gender)))[r]
    {
      var keep := r.isActive && Selected(r, search, zone, gender);
      FilterMultiplicity(rs, ActiveResident, r);
      FilterMultiplicity(rs, Listable(search, zone, gender), r);
      assert multiset(all)[r] == if r.isActive then multiset(rs)[r] else 0;
      assert multiset(searched)[r] == if Given(search) ==> MatchesSearch(r, search.value) then multiset(all)[r] else 0;
      assert multiset(zoned)[r] == if Given(zone) ==> r.zone == zone.value then multiset(searched)[r] else 0;
      assert multiset(gendered)[r] == if Given(gender) ==> GenderCode(r.gender) == gender.value then multiset(zoned)[r] else 0;
    }
  }

  /** `residents_list`: the active residents in name order, narrowed by each
      parameter that is given; and the distinct zones of the active residents
      for the drop-down, ascending. */
  function ResidentsList(rs: seq<Resident>, search: Option<string>, zone: Option<string>, gender: Option<string>): (v: DirectoryView)
    ensures forall r :: r in v.residents <==> r in rs && r.isActive && Selected(r, search, zone, gender)
    ensures multiset(v.residents) == multiset(Filter(rs, Listable(search, zone, gender)))
    ensures SortedBy(v.residents, NameOrder)
    ensures forall z :: z in v.zones <==> exists r :: r in rs && r.isActive && r.zone == z
    ensures forall i, j :: 0 <= i < j < |v.zones| ==> Less(v.zones[i], v.zones[j])
  {
    NameOrderTotal();
    var all := Sort(Filter(rs, ActiveResident), NameOrder);
    var q, z, g := if Given(search) then search.value else "", if Given(zone) then zone.value else "",
                   if Given(gender) then gender.value else "";
    var searched := Narrow(all, Given(search), SearchFor(q));
    var zoned := Narrow(searched, Given(zone), InZone(z));
    var gendered := Narrow(zoned, Given(gender), GenderIs(g));
    NarrowedMembers(rs, all, searched, zoned, gendered, search, zone, gender);
    NarrowedCopies(rs, all, searched, zoned, gendered, search, zone, gender);
    DirectoryView(gendered, Labels(ZoneTally(rs)))
  }

  /** An absent parameter and an empty one give the same list. */
  lemma EmptyParameterIgnored(rs: seq<Resident>, search: Option<string>, zone: Option<string>, gender: Option<string>)
    ensures ResidentsList(rs, Some(""), zone, gender) == ResidentsList(rs, None, zone, gender)
    ensures ResidentsList(rs, search, Some(""), gender) == ResidentsList(rs, search, None, gender)
    ensures ResidentsList(rs, search, zone, Some("")) == ResidentsList(rs, search, zone, None)
  {
  }
}
