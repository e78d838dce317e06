/** The resident registry: the Resident and Household records, the choice
    sets of their coded fields, the derived attributes `full_name`, `age`,
    `complete_address` and `__str__`, and the contact-number validator. */
module Residents {
  import opened Wrappers
  import opened Dates
  import opened Text
  import opened Seqs

  // ---------------------------------------------------------------- choice sets

  datatype Gender = Male | Female

  function GenderCode(g: Gender): string
  {
    match g
    case Male => "M"
    case Female => "F"
  }

  /** Reading a stored gender code back: only the two codes of the choice set. */
  function ParseGender(s: string): (r: Option<Gender>)
    ensures r.Some? <==> s == "M" || s == "F"
    ensures r.Some? ==> GenderCode(r.value) == s
  {
    if s == "M" then Some(Male) else if s == "F" then Some(Female) else None
  }

  datatype CivilStatus = Single | Married | Widowed | Separated | Divorced

  function CivilStatusCode(c: CivilStatus): string
  {
    match c
    case Single => "single"
    case Married => "married"
    case Widowed => "widowed"
    case Separated => "separated"
    case Divorced => "divorced"
  }

  function ParseCivilStatus(s: string): (r: Option<CivilStatus>)
    ensures r.Some? <==> s in {"single", "married", "widowed", "separated", "divorced"}
    ensures r.Some? ==> CivilStatusCode(r.value) == s
  {
    if s == "single" then Some(Single)
    else if s == "married" then Some(Married)
    else if s == "widowed" then Some(Widowed)
    else if s == "separated" then Some(Separated)
    else if s == "divorced" then Some(Divorced)
    else None
  }

  datatype EducationalAttainment = NoFormal | Elementary | HighSchool | Vocational | College | PostGraduate

  function EducationCode(e: EducationalAttainment): string
  {
    match e
    case NoFormal => "no_formal"
    case Elementary => "elementary"
    case HighSchool => "high_school"
    case Vocational => "vocational"
    case College => "college"
    case PostGraduate => "post_graduate"
  }

  datatype EmploymentStatus = Employed | Unemployed | Student | Retired | SelfEmployed | Ofw

  function EmploymentCode(e: EmploymentStatus): string
  {
    match e
    case Employed => "employed"
    case Unemployed => "unemployed"
    case Student => "student"
    case Retired => "retired"
    case SelfEmployed => "self_employed"
    case Ofw => "ofw"
  }

  function ParseEmployment(s: string): (r: Option<EmploymentStatus>)
    ensures r.Some? <==> s in {"employed", "unemployed", "student", "retired", "self_employed", "ofw"}
    ensures r.Some? ==> EmploymentCode(r.value) == s
  {
    if s == "employed" then Some(Employed)
    else if s == "unemployed" then Some(Unemployed)
    else if s == "student" then Some(Student)
    else if s == "retired" then Some(Retired)
    else if s == "self_employed" then Some(SelfEmployed)
    else if s == "ofw" then Some(Ofw)
    else None
  }

  /** Distinct choices are stored under distinct codes, so grouping by the
      stored code groups by the choice. With choices typed as enumerations
      this pins the code strings to the model's choice tuples rather than
      constraining stored data. */
  lemma CodesInjective(a: CivilStatus, b: CivilStatus, e: EmploymentStatus, f: EmploymentStatus,
                       g: EducationalAttainment, h: EducationalAttainment)
    ensures CivilStatusCode(a) == CivilStatusCode(b) ==> a == b
    ensures EmploymentCode(e) == EmploymentCode(f) ==> e == f
    ensures EducationCode(g) == EducationCode(h) ==> g == h
  {
  }

  // ---------------------------------------------------------------- records

  /** The stored fields of a resident that some behaviour reads. */
  datatype Resident = Resident(
    id: nat,
    firstName: string,
    middleName: string,
    lastName: string,
    suffix: string,
    contactNumber: string,
    dateOfBirth: Date,
    gender: Gender,
    civilStatus: CivilStatus,
    houseNumber: string,
    street: string,
    zone: string,
    barangay: string,
    cityMunicipality: string,
    province: string,
    zipCode: string,
    educationalAttainment: EducationalAttainment,
    employmentStatus: EmploymentStatus,
    votersId: string,
    precinctNumber: string,
    isPwd: bool,
    isSeniorCitizen: bool,
    isSoloParent: bool,
    isIndigenous: bool,
    is4PsBeneficiary: bool,
    isActive: bool)

  datatype HouseOwnership = Owned | Rented | Shared | Caretaker

  function OwnershipCode(o: HouseOwnership): string
  {
    match o
    case Owned => "owned"
    case Rented => "rented"
    case Shared => "shared"
    case Caretaker => "caretaker"
  }

  /** A household: its head, its unique number, its members (resident ids). */
  datatype Household = Household(
    head: nat,
    householdNumber: string,
    members: set<nat>,
    ownership: HouseOwnership)

  /** A household as first saved: ownership takes its default, 'owned'. */
  function NewHousehold(head: nat, householdNumber: string, members: set<nat>): (h: Household)
    ensures h.head == head && h.householdNumber == householdNumber && h.members == members
    ensures OwnershipCode(h.ownership) == "owned"
  {
    Household(head, householdNumber, members, Owned)
  }

  /** The default ordering of residents: by last name, then first name. */
  predicate NameOrder(a: Resident, b: Resident)
  {
    Less(a.lastName, b.lastName) || (a.lastName == b.lastName && !Less(b.firstName, a.firstName))
  }

  lemma NameOrderTotal()
    ensures TotalPreorder(NameOrder)
  {
    forall x: Resident, y: Resident
      ensures NameOrder(x, y) || NameOrder(y, x)
    {
      LessTotal(x.lastName, y.lastName);
      LessTotal(x.firstName, y.firstName);
      if Less(x.firstName, y.firstName) {
        LessAsymmetric(x.firstName, y.firstName);
      }
    }
    forall x: Resident, y: Resident, z: Resident | NameOrder(x, y) && NameOrder(y, z)
      ensures NameOrder(x, z)
    {
      if Less(x.lastName, y.lastName) && Less(y.lastName, z.lastName) {
        LessTransitive(x.lastName, y.lastName, z.lastName);
      }
      if x.lastName == y.lastName == z.lastName {
        if Less(z.firstName, x.firstName) {
          LessTotal(y.firstName, x.firstName);
          if Less(x.firstName, y.firstName) {
            LessTransitive(z.firstName, x.firstName, y.firstName);
          } else if Less(y.firstName, x.firstName) {
            LessTotal(z.firstName, y.firstName);
            if Less(y.firstName, z.firstName) {
              LessTransitive(y.firstName, z.firstName, x.firstName);
            }
          }
        }
      }
    }
  }

  // ---------------------------------------------------------------- derived attributes

  /** The words a name part contributes: none when it is blank. */
  function Optional(part: string): seq<string>
  {
    if part == "" then [] else [part]
  }

  /** `full_name`: first name, the middle name when there is one, last name,
      the suffix when there is one, separated by single spaces. */
  function FullName(r: Resident): (s: string)
    ensures r.middleName == "" && r.suffix == "" ==> s == r.firstName + " " + r.lastName
    ensures IsPrefix(r.firstName, s)
    ensures |s| == |r.firstName| + 1 + |r.lastName|
                   + (if r.middleName != "" then |r.middleName| + 1 else 0)
                   + (if r.suffix != "" then |r.suffix| + 1 else 0)
  {
    var middle := if r.middleName != "" then " " + r.middleName else "";
    var suffix := if r.suffix != "" then " " + r.suffix else "";
    r.firstName + middle + " " + r.lastName + suffix
  }

  /** When no name part holds a space, splitting `full_name` at spaces gives
      back exactly the non-blank parts in order: the middle name shows up
      between first and last name iff it is non-blank, and the suffix comes
      last iff it is non-blank. */
  lemma FullNameWords(r: Resident)
    requires ' ' !in r.firstName && ' ' !in r.middleName && ' ' !in r.lastName && ' ' !in r.suffix
    ensures Split(FullName(r)) ==
            [r.firstName] + Optional(r.middleName) + [r.lastName] + Optional(r.suffix)
  {
    var f, m, l, x := r.firstName, r.middleName, r.lastName, r.suffix;
    var lx := if x != "" then l + " " + x else l;
    var rest := if m != "" then m + " " + lx else lx;
    FullNameShape(r);
    assert Split(lx) == [l] + Optional(x) by {
      LastNameWords(l, x);
    }
    assert Split(rest) == Optional(m) + [l] + Optional(x) by {
      if m != "" {
        SplitJoin(m, lx);
      }
    }
    assert Split(f + " " + rest) == [f] + Split(rest) by {
      SplitJoin(f, rest);
    }
    assert [f] + (Optional(m) + [l] + Optional(x)) == [f] + Optional(m) + [l] + Optional(x);
  }

  /** Where the parts sit in `full_name`: right after the first name comes
      " middle last" when the middle name is non-blank and " last" when it is
      blank; the name ends in " suffix" when the suffix is non-blank and in
      " last" when it is blank. */
  lemma FullNamePositions(r: Resident)
    ensures r.middleName != "" ==>
              OccursAt(FullName(r), " " + r.middleName + " " + r.lastName, |r.firstName|)
    ensures r.middleName == "" ==> OccursAt(FullName(r), " " + r.lastName, |r.firstName|)
    ensures r.suffix != "" ==> IsSuffix(" " + r.suffix, FullName(r))
    ensures r.suffix == "" ==> IsSuffix(" " + r.lastName, FullName(r))
  {
    FullNameMiddle(r);
    FullNameEnd(r);
  }

  /** The first two facts of `FullNamePositions`. */
  lemma FullNameMiddle(r: Resident)
    ensures r.middleName != "" ==>
              OccursAt(FullName(r), " " + r.middleName + " " + r.lastName, |r.firstName|)
    ensures r.middleName == "" ==> OccursAt(FullName(r), " " + r.lastName, |r.firstName|)
  {
    var f, m, l := r.firstName, r.middleName, r.lastName;
    var core := if m != "" then " " + m + " " + l else " " + l;
    var tail := if r.suffix != "" then " " + r.suffix else "";
    assert FullName(r) == f + core + tail;
    PartsOfConcat(f, core, tail);
  }

  /** The last two facts of `FullNamePositions`. */
  lemma FullNameEnd(r: Resident)
    ensures r.suffix != "" ==> IsSuffix(" " + r.suffix, FullName(r))
    ensures r.suffix == "" ==> IsSuffix(" " + r.lastName, FullName(r))
  {
    var head := r.firstName + (if r.middleName != "" then " " + r.middleName else "");
    if r.suffix != "" {
      assert FullName(r) == (head + " " + r.lastName) + (" " + r.suffix) + "";
      PartsOfConcat(head + " " + r.lastName, " " + r.suffix, "");
    } else {
      assert FullName(r) == head + (" " + r.lastName) + "";
      PartsOfConcat(head, " " + r.lastName, "");
    }
  }

  /** In a + b + c, b starts right after a and c ends the string. */
  lemma PartsOfConcat(a: string, b: string, c: string)
    ensures OccursAt(a + b + c, b, |a|)
    ensures IsSuffix(c, a + b + c)
  {
    var s := a + b + c;
    assert s[|a|..|a| + |b|] == b;
    assert s[|s| - |c|..] == c;
  }

  /** `full_name` as the first name, a space, and the rest of the parts: a
      regrouping of `FullName`'s body, kept only as the first proof step of
      `FullNameWords`, not as a property of its own. */
  lemma FullNameShape(r: Resident)
    ensures var lx := if r.suffix != "" then r.lastName + " " + r.suffix else r.lastName;
      FullName(r) == r.firstName + " " + (if r.middleName != "" then r.middleName + " " + lx else lx)
  {
  }

  lemma LastNameWords(l: string, x: string)
    requires ' ' !in l && ' ' !in x
    ensures Split(if x != "" then l + " " + x else l) == [l] + Optional(x)
  {
    if x != "" {
      SplitJoin(l, x);
      SplitWord(x);
    } else {
      SplitWord(l);
    }
  }

  /** `__str__`: "last, first middle", keeping the trailing space when the
      middle name is blank. */
  function DisplayName(r: Resident): (s: string)
    ensures IsPrefix(r.lastName + ", " + r.firstName + " ", s)
    ensures IsSuffix(" " + r.middleName, s)
    ensures |s| == |r.lastName| + |r.firstName| + |r.middleName| + 3
  {
    r.lastName + ", " + r.firstName + " " + r.middleName
  }

  /** `complete_address`: "house street, Zone zone, barangay, city, province zip". */
  function CompleteAddress(r: Resident): (s: string)
    ensures IsPrefix(r.houseNumber + " " + r.street + ", Zone " + r.zone + ", ", s)
    ensures OccursAt(s, ", Zone " + r.zone, |r.houseNumber| + 1 + |r.street|)
    ensures IsSuffix(r.province + " " + r.zipCode, s)
  {
    var head := r.houseNumber + " " + r.street + ", Zone " + r.zone + ", ";
    var s := head + r.barangay + ", " + r.cityMunicipality + ", " + r.province + " " + r.zipCode;
    var tail := r.province + " " + r.zipCode;
    assert s == head + r.barangay + ", " + r.cityMunicipality + ", " + tail;
    assert s[..|head|] == head;
    assert s[|r.houseNumber| + 1 + |r.street|..][..|", Zone " + r.zone|] == ", Zone " + r.zone;
    assert s[|s| - |tail|..] == tail;
    s
  }

  /** `age`: the difference of the years, less one while today's (month, day)
      is still before the birthday's. */
  function Age(dob: Date, today: Date): (a: int)
    ensures today.year - dob.year - 1 <= a <= today.year - dob.year
    ensures today.month == dob.month && today.day == dob.day ==> a == today.year - dob.year
    ensures today.month < dob.month ==> a == today.year - dob.year - 1
  {
    today.year - dob.year - (if MonthDayBefore(today.month, today.day, dob.month, dob.day) then 1 else 0)
  }

  /** Nobody born on or before today has a negative age. */
  lemma AgeNonNegative(dob: Date, today: Date)
    requires NotAfter(dob, today)
    ensures Age(dob, today) >= 0
  {
  }

  /** The age is the full number of years: it is y on the y-th birthday and
      one less on the day before it. */
  lemma AgeOnBirthday(dob: Date, y: nat)
    requires Valid(dob) && Valid(Date(dob.year + y, dob.month, dob.day))
    ensures Age(dob, Date(dob.year + y, dob.month, dob.day)) == y
    ensures y > 0 ==> Age(dob, PrevDay(Date(dob.year + y, dob.month, dob.day))) == y - 1
  {
  }

  /** From one day to the next the age grows by 0 or 1, never shrinks. */
  lemma AgeStep(dob: Date, today: Date)
    requires Valid(dob) && Valid(today)
    ensures Age(dob, NextDay(today)) - Age(dob, today) in {0, 1}
  {
  }

  /** A later date never gives a smaller age. */
  lemma AgeMonotone(dob: Date, t1: Date, t2: Date)
    requires Valid(t1) && Valid(t2) && NotAfter(t1, t2)
    ensures Age(dob, t1) <= Age(dob, t2)
  {
  }

  // ---------------------------------------------------------------- contact number

  predicate IsDigit(c: char)
  {
    '0' <= c <= '9'
  }

  /** `\d{9,15}$`: nine to fifteen digits and nothing after them. */
  predicate DigitRun(t: string)
  {
    9 <= |t| <= 15 && forall i :: 0 <= i < |t| ==> IsDigit(t[i])
  }

  /** The pattern `^\+?1?\d{9,15}$` as a backtracking matcher runs it: take a
      leading '+' if present; then either take a '1' and require a digit run
      after it, or, failing that, give the '1' back and require the digit run
      from there. */
  predicate PhonePatternMatches(s: string): (m: bool)
    ensures m ==> 9 <= |s| <= 17
    ensures m ==> s[0] == '+' || IsDigit(s[0])
    ensures m ==> forall i :: 0 < i < |s| ==> IsDigit(s[i])
  {
    var rest := if |s| > 0 && s[0] == '+' then s[1..] else s;
    (|rest| > 0 && rest[0] == '1' && DigitRun(rest[1..])) || DigitRun(rest)
  }

  /** s reads as an optional '+' (when sign), an optional '1' (when one), then
      a digit run. */
  predicate PhoneLayout(s: string, sign: bool, one: bool)
  {
    var i := if sign then 1 else 0;
    var j := i + (if one then 1 else 0);
    j <= |s| && (sign ==> s[0] == '+') && (one ==> s[i] == '1') && DigitRun(s[j..])
  }

  /** The language of the pattern: an optional '+', an optional '1', then
      nine to fifteen digits. */
  ghost predicate InPhoneLanguage(s: string)
  {
    exists sign: bool, one: bool :: PhoneLayout(s, sign, one)
  }

  /** The matcher accepts exactly the language of the pattern. */
  lemma PhonePatternLanguage(s: string)
    ensures PhonePatternMatches(s) <==> InPhoneLanguage(s)
  {
    var plus := |s| > 0 && s[0] == '+';
    var rest := if plus then s[1..] else s;
    if PhonePatternMatches(s) {
      if |rest| > 0 && rest[0] == '1' && DigitRun(rest[1..]) {
        assert PhoneLayout(s, plus, true);
      } else {
        assert PhoneLayout(s, plus, false);
      }
    }
    if InPhoneLanguage(s) {
      var sign, one :| PhoneLayout(s, sign, one);
      if !sign && plus {
        assert false;
      }
      assert sign == plus;
      var j := if one then 1 else 0;
      assert s[(if sign then 1 else 0) + j..] == rest[j..];
    }
  }

  /** The contact-number field accepts a value when it is blank (validators
      do not run on blank values), or when it fits in 15 characters and
      matches the pattern. */
  predicate ContactNumberAccepted(s: string): (a: bool)
    ensures a <==> s == "" || (|s| <= 15 && InPhoneLanguage(s))
  {
    PhonePatternLanguage(s);
    s == "" || (|s| <= 15 && PhonePatternMatches(s))
  }

  /** Every accepted non-blank number is 9 to 15 characters long and ends in
      a digit. */
  lemma ContactNumberShape(s: string)
    requires ContactNumberAccepted(s) && s != ""
    ensures 9 <= |s| <= 15 && IsDigit(s[|s| - 1])
  {
    var rest := if |s| > 0 && s[0] == '+' then s[1..] else s;
    if |rest| > 0 && rest[0] == '1' && DigitRun(rest[1..]) {
      assert s[|s| - 1] == rest[1..][|rest[1..]| - 1];
    } else {
      assert s[|s| - 1] == rest[|rest| - 1];
    }
  }

  /** A '+' and fifteen digits satisfy the pattern, yet the 15-character
      column limit refuses them: with a '+' at most fourteen digits fit. */
  lemma PlusFifteenDigitsRefused()
    ensures PhonePatternMatches("+123456789012345")
    ensures !ContactNumberAccepted("+123456789012345")
  {
    assert "+123456789012345"[1..] == "123456789012345";
    assert DigitRun("123456789012345");
  }
}
