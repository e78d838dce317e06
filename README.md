# barangay_ims in Dafny

A model of the core of barangay_ims, a Django registry of the residents of a barangay with its
barangay-health-worker (BHW) reports, and proofs about it. The model covers:

- the `Resident` and `Household` records and the values derived from them: full name, display
  string, complete address, age, and the contact-number validator;
- the five BHW report tables: senior citizens, sari-sari stores and carenderias, 4Ps
  beneficiaries, pregnancies and health reports. This includes their choice sets and defaults,
  and the pregnancy `trimester` rule;
- the schema's constraints, kept by a `Registry` class that inserts rows and deletes residents
  with `ON DELETE CASCADE`. The constraints are primary keys, the unique household number, the
  one-to-one senior and 4Ps links, the unique 4Ps household id and foreign keys;
- the read-only views:
  - the dashboard counts and zone histogram;
  - the senior, business, 4Ps and pregnancy reports;
  - the filtered resident directory;
  - the three voter reports.

Each database query is a filter, count, group-by or sort over the rows of a table, and a table is
a sequence. "Today" is a parameter. A view is a function, or a method where the source loops. It
maps the tables, today and its optional query parameters to what the view hands its template.

Modules:

- `Wrappers`: `Option`, and the two database errors an insert can raise.
- `Dates`: proleptic Gregorian dates with Python's `date` order. `date ± timedelta(days=n)`
  becomes `AddDays`/`SubDays`, stepping one day at a time.
- `Text`: lexicographic string order by character code, which is how `ORDER BY`, `__gt` and
  `order_by` compare text under SQLite's default `BINARY` collation; ASCII lower case, substring
  search and splitting on spaces.
- `Seqs`:
  - `filter`/`count` over rows;
  - a stable insertion sort by any total preorder;
  - `values(k).annotate(count=Count('id')).order_by(k)` as `Tally`, a sorted list of
    (key, count) buckets.
- `Residents`: residents/models.py.
- `Reports`: bhw_reports/models.py.
- `Registry`: the tables and their constraints.
- `Dashboard`: dashboard/views.py.
- `Voters`: residents/views.py.

## Model

| member | source | states |
|---|---|---|
| `Residents.ParseGender` | residents/models.py:16-19 | only "M" and "F" are genders, and the stored code of the parsed gender is the input |
| `Residents.ParseCivilStatus` | residents/models.py:8-14 | exactly the five civil-status codes parse, each back to itself |
| `Residents.ParseEmployment` | residents/models.py:30-37 | exactly the six employment codes parse, each back to itself |
| `Residents.CodesInjective` | residents/models.py:8-37 | distinct civil-status, employment and education choices store distinct codes |
| `Residents.NewHousehold` | residents/models.py:132-143 | a new household keeps its head, number and members, and its ownership defaults to "owned" |
| `Residents.NameOrderTotal` | residents/models.py:108-109 | the default ordering (last name, then first name) is a total preorder, so sorting by it is well defined |
| `Residents.FullName` | residents/models.py:116-120 | with no middle name and no suffix the full name is first + " " + last; it starts with the first name; its length counts one space before each present part |
| `Residents.FullNamePositions` | residents/models.py:118-120 | right after the first name comes " middle last" when a middle name is given and " last" when it is blank; the name ends in " suffix" when a suffix is given and in " last" when it is blank |
| `Residents.FullNameWords` | residents/models.py:116-120 | for space-free name parts, splitting the full name on spaces gives first, the middle name if any, last, and the suffix if any |
| `Residents.DisplayName` | residents/models.py:113-114 | `__str__` starts with last + ", " + first + " " and ends with " " + middle, so the trailing space stays when middle is empty |
| `Residents.CompleteAddress` | residents/models.py:127-129 | the address starts with house number + " " + street, has ", Zone " + zone right after them, and ends with province + " " + zip code |
| `Residents.Age` | residents/models.py:122-125 | the age is the difference of the years or one less; it is the full difference when today's month and day are the birthday's and one less in any month before the birth month |
| `Residents.AgeNonNegative` | residents/models.py:122-125 | the age of someone born on or before today is at least 0 |
| `Residents.AgeOnBirthday` | residents/models.py:122-125 | on the y-th birthday the age is y, and on the day before it is y - 1 |
| `Residents.AgeStep` | residents/models.py:125 | moving today forward one day raises the age by 0 or 1 |
| `Residents.AgeMonotone` | residents/models.py:125 | the age never decreases as today advances |
| `Residents.PhonePatternMatches` | residents/models.py:48 | a matching number has 9 to 17 characters, starts with "+" or a digit, and is digits after its first character |
| `Residents.ContactNumberAccepted` | residents/models.py:46-50 | a contact number is accepted iff it is blank, or it has at most 15 characters and is in the pattern's language (optional "+", optional "1", 9 to 15 digits) |
| `Residents.PhonePatternLanguage` | residents/models.py:46-50 | the backtracking regex match accepts exactly an optional "+", an optional "1", then 9 to 15 digits |
| `Residents.ContactNumberShape` | residents/models.py:46-50 | an accepted non-empty contact number has 9 to 15 characters and ends in a digit |
| `Residents.PlusFifteenDigitsRefused` | residents/models.py:46-48 | "+" followed by 15 digits matches the regex but is refused by max_length=15 |
| `Reports.ParseMobility` | bhw_reports/models.py:20-25 | exactly the four mobility codes parse, each back to itself |
| `Reports.ParseBusinessType` | bhw_reports/models.py:50-55 | exactly the four business-type codes parse, each back to itself |
| `Reports.ParseOutcome` | bhw_reports/models.py:167-173 | exactly the five pregnancy-outcome codes parse, each back to itself |
| `Reports.ParseReportType` | bhw_reports/models.py:204-211 | exactly the six health-report types parse, each back to itself |
| `Reports.CodesInChoiceSets` | bhw_reports/models.py:10-211 | every stored mobility, business-type, outcome, report-type and pension code lies in its fixed choice set |
| `Reports.NewSeniorCitizenReport` | bhw_reports/models.py:7-36 | a new senior report is active, has mobility "independent" and no checkup date |
| `Reports.NewSariSariStoreReport` | bhw_reports/models.py:57-79 | a new business report is active, has 0 employees, and has neither sanitation nor fire safety |
| `Reports.NewFourPsBeneficiaryReport` | bhw_reports/models.py:94-112 | a new 4Ps report is active and compliant on all three conditions, with 0 children and 0 pregnant women |
| `Reports.NewPregnancyReport` | bhw_reports/models.py:130-177 | a new pregnancy report is "ongoing", active and not high-risk, with 0 prenatal visits and 0 tetanus doses |
| `Reports.NewHealthReport` | bhw_reports/models.py:203-237 | a new health report is dated today and needs no follow-up |
| `Reports.StageLabelInjective` | bhw_reports/models.py:193-198 | the four trimester strings are pairwise distinct |
| `Reports.Trimester` | bhw_reports/models.py:189-198 | `trimester` is always one of exactly four strings |
| `Reports.TrimesterRanges` | bhw_reports/models.py:189-198 | "1st Trimester" iff 1-12 weeks; "2nd" iff 13-28; "3rd" iff 29 or more; "Unknown" iff the weeks are null or 0 (the test is truthiness) |
| `Reports.TrimesterBoundaries` | bhw_reports/models.py:191-198 | the values at null, 0, 1, 12, 13, 28 and 29 weeks |
| `Registry.Consistent` | bhw_reports/models.py:9-203 | the schema's constraints: distinct resident keys below the next key, household heads and members are residents, unique household numbers, every report references a resident, one senior and one 4Ps report per resident, unique 4Ps household ids |
| `Registry.Delete` | bhw_reports/models.py:9-203 | deleting a resident cascades to the households it heads, its membership rows and its reports in all five tables; no table grows and the next key is not reused |
| `Registry.CascadeRows` | bhw_reports/models.py:57 | a cascade keeps exactly the rows of other residents in their order; it leaves a table with no row of the resident as it was; kept and removed rows make up the old table |
| `Registry.CascadeKeepsUnique` | bhw_reports/models.py:94-95 | a unique or one-to-one column stays unique after a cascade |
| `Registry.DeleteLeavesNoResident` | residents/models.py:7 | after deleting resident id, that key is gone and every other resident row is still there |
| `Registry.DeleteLeavesNoHousehold` | residents/models.py:134-136 | after the delete no household is headed by the resident or lists it as a member, and every household headed by someone else is still there with the resident taken out of its members |
| `Registry.DeleteLeavesNoReport` | bhw_reports/models.py:9-203 | each of the five report tables keeps exactly its rows that reference someone else |
| `Registry.DeleteKeepsConsistent` | bhw_reports/models.py:9-203 | deleting a resident removes exactly its key and keeps every schema constraint |
| `Registry.AddKeepsConsistent` | residents/models.py:7-106 | inserting a resident under the next fresh key adds exactly that key and keeps every constraint |
| `Registry.OneToOne` | bhw_reports/models.py:9-95 | in consistent tables a resident has at most one senior report and at most one 4Ps report, and a 4Ps household id is used at most once |
| `Registry.Registry.AddResident` | residents/models.py:7-106 | appends the resident under a fresh key that was not in use before, and keeps the constraints |
| `Registry.Registry.AddHousehold` | residents/models.py:132-136 | refuses an unknown head (checked first), unknown members, or a duplicate household number; otherwise appends the household; the tables are unchanged on error |
| `Registry.Registry.AddSeniorCitizenReport` | bhw_reports/models.py:9 | refuses an unknown resident or a second report for the same resident; otherwise appends it |
| `Registry.Registry.AddSariSariStoreReport` | bhw_reports/models.py:57 | refuses an unknown owner; otherwise appends the business |
| `Registry.Registry.AddFourPsBeneficiaryReport` | bhw_reports/models.py:94-95 | refuses an unknown beneficiary, a second report for the same beneficiary, or a duplicate household id; otherwise appends it |
| `Registry.Registry.AddPregnancyReport` | bhw_reports/models.py:130 | refuses an unknown woman; otherwise appends the report |
| `Registry.Registry.AddHealthReport` | bhw_reports/models.py:203 | refuses an unknown resident; otherwise appends the report |
| `Registry.Registry.DeleteResident` | bhw_reports/models.py:9-203 | the new tables are the old ones with the resident and everything cascading from it removed, and the constraints still hold |
| `Dates.AddThenSubDays` | dashboard/views.py:196 | `(d + timedelta(days=n)) - timedelta(days=n)` is d again: the forward and backward day steps used by the views are inverse |
| `Dashboard.AgeBandsPartition` | dashboard/views.py:26-40 | the children, adults and seniors bands (cut-offs of 18·365 and 60·365 days) add up to the active residents |
| `Dashboard.CountHeadcounts` | dashboard/views.py:17-60 | male + female = total; children + adults + seniors = total; each category count is at most the total; each report count is at most its table |
| `Dashboard.RecentWindow` | dashboard/views.py:58-60 | a health report from 7 days ago is recent, and one from 8 days ago is not |
| `Dashboard.Percentage` | dashboard/views.py:70 | 0 when the total is 0; otherwise p · total = count · 100; between 0 and 100 when count ≤ total |
| `Dashboard.ZoneTally` | dashboard/views.py:63-65 | zones strictly ascending; a zone is listed iff an active resident lives in it; each bucket's count is the number of active residents in its zone, at least 1; the counts add up to the active residents |
| `Dashboard.ZoneDistribution` | dashboard/views.py:68-75 | one share per zone bucket, with the same zone and count and the guarded percentage |
| `Dashboard.PercentSumOfCounts` | dashboard/views.py:68-75 | the percentages of the buckets add up to the percentage of their summed counts |
| `Dashboard.PercentageAdditive` | dashboard/views.py:71 | percentages of one total add like their counts |
| `Dashboard.ZonePercentagesTotal` | dashboard/views.py:63-75 | with active residents the zone percentages add up to exactly 100; without, there are no zones |
| `Dashboard.DashboardView` | dashboard/views.py:13-109 | the counts are `CountHeadcounts`; the zone rows are the tally with their percentages, ascending by zone, each counting the active residents of its zone; civil-status and employment breakdowns each add up to the active total |
| `Dashboard.NeedingAssessment` | dashboard/views.py:118-127 | max(0, seniors - reports): never negative, the difference when seniors ≥ reports, 0 otherwise |
| `Dashboard.SeniorCitizensReport` | dashboard/views.py:112-130 | lists the active senior citizens in name order, each row as often as in the table, and the active senior reports in table order (see "Left out"); the totals are the counts of those rows; the number needing assessment is clamped at 0 and never exceeds the seniors |
| `Dashboard.TypeCountsCover` | dashboard/views.py:138-140 | the four business-type counts add up to the number of businesses |
| `Dashboard.BusinessesReport` | dashboard/views.py:133-156 | lists the active businesses in table order (see "Left out") and counts them; each type and compliance count, taken on the narrowed query, is the count of active rows with that type or flag; sari-sari + carenderia + both + other = total; compliance counts are at most the total |
| `Dashboard.FourPsReport` | dashboard/views.py:159-176 | lists the active 4Ps reports in table order (see "Left out") and counts them; each compliance count is the count of active rows meeting that condition, at most the total |
| `Dashboard.ReportPagesAgree` | dashboard/views.py:44-170 | the seniors, senior-report, business and 4Ps totals on the report pages equal the dashboard's counts for the same tables |
| `Dashboard.InStageIsTrimester` | dashboard/views.py:203-209 | the loop's branch for a stage is taken iff `trimester` gives that stage's string |
| `Dashboard.ClassifyPregnancies` | dashboard/views.py:198-209 | the due-soon flag of each pregnancy is edd ≤ next month; each trimester list is the pregnancies of that stage in their order |
| `Dashboard.TrimesterListsPartition` | dashboard/views.py:203-209 | list membership agrees with `trimester`; the lists are pairwise disjoint; null or 0 weeks are in none; the lists together hold every pregnancy with a gestation age |
| `Dashboard.DueSoonWindow` | dashboard/views.py:196-200 | a due date k days ahead is due soon iff k ≤ 30 (30 flagged, 31 not), and an overdue pregnancy is due soon |
| `Dashboard.DueOrderTotal` | dashboard/views.py:212-214 | ordering by expected due date is a total preorder |
| `Dashboard.PregnancyReportView` | dashboard/views.py:179-226 | active = ongoing and active reports; high-risk count; the due-soon flags and trimester lists above; the upcoming deliveries are exactly the active ones due by today + 30 days, sorted by due date |
| `Dashboard.Narrow` | dashboard/views.py:235-251 | an optional filter is `filter(p)` when its parameter is given and leaves the rows as they are otherwise: every copy of a passing row stays, no copy of a failing one, and the name order is kept |
| `Dashboard.NarrowedMembers` | dashboard/views.py:231-251 | after the three optional filters a resident remains iff it is active and meets every given parameter |
| `Dashboard.NarrowedCopies` | dashboard/views.py:231-251 | the three optional filters keep every copy of each active resident meeting the given parameters and no copy of anyone else |
| `Dashboard.ResidentsList` | dashboard/views.py:229-264 | the listed residents are a permutation of the active ones matching every given search, zone and gender parameter, in name order; the zone drop-down lists each active zone once, ascending |
| `Dashboard.EmptyParameterIgnored` | dashboard/views.py:235-251 | an empty search, zone or gender parameter gives the same list as an absent one |
| `Voters.IsVoter` | residents/views.py:15-20 | a voter has a voter id above the empty string, a precinct number above the empty string, and is active |
| `Voters.IsVoterNonEmpty` | residents/views.py:42-45 | a voter has a non-empty voter id, a non-empty precinct number, and is active |
| `Voters.VoterOrderTotal` | residents/views.py:46 | ordering by precinct, last name, first name is a total preorder |
| `Voters.SamePrecinctOrder` | residents/views.py:46 | within one precinct, that ordering is the name ordering |
| `Voters.VotersReport` | residents/views.py:59-68 | the effective `voters_report` is exactly the voters, each once per row, sorted by precinct then name |
| `Seqs.KeyCountIsMultiplicity` | dashboard/views.py:63-65 | the number of rows whose column holds k is how often k occurs in the column, which is what `values(k).annotate(Count)` counts |
| `Voters.CountIsMultiplicity` | residents/views.py:21-22 | the count of a precinct's rows is how often its number occurs among the rows |
| `Voters.PrecinctDashboard` | residents/views.py:13-33 | labels and totals have equal length; labels strictly ascending; a label is listed iff some voter is in that precinct; each total is ≥ 1 and is that precinct's voter count; totals add up to the voters |
| `Voters.GroupStep` | residents/views.py:50-51 | one `precincts[...].append(voter)` keeps the grouping invariant: each key listed once, one non-empty list per precinct holding its voters in reading order, list sizes adding up to the voters read |
| `Voters.OrderStep` | residents/views.py:46-51 | reading voters sorted by precinct, a new key is appended after every key already listed, so the keys stay ascending and end with the last voter's precinct |
| `Voters.GroupingInvariant` | residents/views.py:46-51 | after any number of rounds over voters sorted by precinct, the dictionary and its key order keep the grouping invariant, and the keys are ascending |
| `Voters.ReportGrouping` | residents/views.py:41-55 | the key order and dictionary built from the whole voters report have keys distinct, ascending and equal to the map's domain, lists that are the report filtered to each precinct, and list sizes adding up to the report |
| `Voters.GroupedReport` | residents/views.py:48-55 | a complete grouping has sorted, non-empty lists holding exactly their precinct's voters, places every voter, and has list sizes adding up to the report's length |
| `Voters.VotersByPrecinctReport` | residents/views.py:41-55 | keys distinct, ascending and equal to the map's domain; each list is the sorted report filtered to its precinct, non-empty and in name order; every voter is in the list of its own precinct and no other; the list sizes add up to the length of `voters_report` |
| `Voters.ChartMatchesGroups` | residents/views.py:13-55 | a precinct has a chart bar iff the voters report has voters there (the precincts that get a list), and the bar is the number of them, so each bar is that precinct's list length |

## Left out

- Rendering, templates, the HTTP request and `request.GET` parsing. Each view takes its tables,
  today and its optional parameters, and returns what it would hand the template.
- `timezone.now()` is a parameter. `auto_now`/`auto_now_add` timestamps and `date_registered`
  are not modelled.
- The dashboard's float percentage and `round(…, 1)`: `Percentage` is the exact rational
  count · 100 / total.
- Decimal money and measurement fields, and free-text fields that are only stored: their
  contents are never computed with.
- `icontains` uses ASCII lower-casing, not the database's collation or Unicode case folding.
  The validator's `\d` is an ASCII digit, and `$` is not allowed to match before a trailing
  newline.
- Python's `OverflowError` at year 1 and year 9999: dates are unbounded.
- Choice columns (gender, civil status, employment, education, mobility, business type,
  outcome, report type) are enumerations, so a stored value outside its choice set cannot be
  expressed. Django checks `choices` only in form or `full_clean` validation, not in the
  database; an off-choice gender would count in `total_residents` but in neither gender count,
  so `CountHeadcounts`' male + female = total and `CodesInChoiceSets` rest on this typing.
- Text comparison is by character code (SQLite's default `BINARY` collation). Other databases'
  collations, which can order and compare text differently, are not modelled.
- `Dashboard.SeniorCitizensReport`, `Dashboard.BusinessesReport` and `Dashboard.FourPsReport`:
  the senior-report, business and 4Ps querysets (dashboard/views.py:115, 135, 161) have no
  `order_by`, and their models declare no `Meta.ordering`, so the database may return them in
  any order. The model lists them in table order; only their contents and counts are the
  source's promise.
- Ties in `ORDER BY` are left to the database. The model uses a stable insertion sort, so
  equal keys keep their table order.
- `Dashboard.PregnancyReportView` takes the pregnancy table already in the order of its
  `Meta.ordering` (`-created_at`), because creation timestamps are not modelled.
- `Dashboard.PregnancyReportView`: the source sets `due_soon` as an attribute on each ORM
  object. The model returns these flags as a sequence parallel to the active pregnancies.
- The counts in one view come from separate queries. The model reads every count from one
  snapshot of the tables.
- The first `voters_report` (residents/views.py:35-39) is dead code: the second definition
  replaces it when the module loads.
- `precinct_number` is used by the views but is not declared in the Resident model shown. It is
  a plain string field here.
- `Voters.VotersByPrecinctReport` returns the `defaultdict` as a map together with its keys in
  first-insertion order, which is the order `dict(precincts)` keeps; that order is proved
  ascending.
- `Registry.Registry.AddHousehold`: the database checks constraints in its own order. The model
  checks the head, then the members, then the number, and reports only the first violation.
- Registry inserts of residents always take the next fresh primary key. An explicit primary key
  chosen by the caller is not modelled.
- The admin, URL routing and form modules are not part of this model.
