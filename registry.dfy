/** The tables behind the models and the constraints the schema declares on
    them: primary keys of residents, the unique household number, the
    one-to-one links of senior-citizen and 4Ps reports, the unique 4Ps
    household id, the foreign keys of every report and household, and
    ON DELETE CASCADE from a resident to everything that references it. */
module Registry {
  import opened Wrappers
  import opened Seqs
  import opened Residents
  import opened Reports

  // ---------------------------------------------------------------- keys of each table

  function ResidentIdOf(r: Resident): nat { r.id }
  function HeadOf(h: Household): nat { h.head }
  function NumberOf(h: Household): string { h.householdNumber }
  function SeniorOwner(r: SeniorCitizenReport): nat { r.resident }
  function BusinessOwner(r: SariSariStoreReport): nat { r.owner }
  function FourPsOwner(r: FourPsBeneficiaryReport): nat { r.beneficiary }
  function FourPsHouseholdId(r: FourPsBeneficiaryReport): string { r.householdId }
  function PregnancyOwner(r: PregnancyReport): nat { r.pregnantWoman }
  function HealthOwner(r: HealthReport): nat { r.resident }

  function OwnedBy<T>(owner: T -> nat, id: nat): T -> bool
  {
    x => owner(x) == id
  }

  function NotOwnedBy<T>(owner: T -> nat, id: nat): T -> bool
  {
    x => owner(x) != id
  }

  /** What ON DELETE CASCADE leaves of a table when resident id is deleted. */
  function Cascade<T(!new)>(s: seq<T>, owner: T -> nat, id: nat): seq<T>
  {
    Filter(s, NotOwnedBy(owner, id))
  }

  /** A cascade keeps exactly the rows that reference someone else, in their
      old order; a table with no row of id is left as it was; the rows removed
      and the rows kept together make up the old table. */
  lemma CascadeRows<T(!new)>(s: seq<T>, owner: T -> nat, id: nat)
    ensures forall x :: x in Cascade(s, owner, id) <==> x in s && owner(x) != id
    ensures (forall x :: x in s ==> owner(x) != id) ==> Cascade(s, owner, id) == s
    ensures multiset(Cascade(s, owner, id)) + multiset(Filter(s, OwnedBy(owner, id))) == multiset(s)
  {
    FilterKeepsAll(s, NotOwnedBy(owner, id));
    FilterSplit(s, NotOwnedBy(owner, id), OwnedBy(owner, id));
  }

  /** A table that satisfied a uniqueness constraint still does after a cascade. */
  lemma CascadeKeepsUnique<T(!new), K>(s: seq<T>, owner: T -> nat, id: nat, key: T -> K)
    requires DistinctKeys(s, key)
    ensures DistinctKeys(Cascade(s, owner, id), key)
  {
    FilterDistinctKeys(s, key, NotOwnedBy(owner, id));
  }

  /** The many-to-many rows of a deleted resident go too: it leaves every
      member set. */
  function DropMember(hs: seq<Household>, id: nat): (r: seq<Household>)
    ensures |r| == |hs|
    ensures forall i :: 0 <= i < |hs| ==>
      r[i].head == hs[i].head && r[i].householdNumber == hs[i].householdNumber &&
      r[i].ownership == hs[i].ownership && r[i].members == hs[i].members - {id}
  {
    if hs == [] then []
    else DropMember(hs[..|hs| - 1], id) + [hs[|hs| - 1].(members := hs[|hs| - 1].members - {id})]
  }

  /** The primary keys present in a resident table. */
  function IdsOf(rs: seq<Resident>): set<nat>
  {
    if rs == [] then {} else IdsOf(rs[..|rs| - 1]) + {rs[|rs| - 1].id}
  }

  /** A key is present exactly when some resident row carries it. */
  lemma {:induction false} IdsOfRows(rs: seq<Resident>)
    ensures forall r :: r in rs ==> r.id in IdsOf(rs)
    ensures forall x :: x in IdsOf(rs) ==> exists r :: r in rs && r.id == x
  {
    if rs != [] {
      var init := rs[..|rs| - 1];
      IdsOfRows(init);
      assert rs == init + [rs[|rs| - 1]];
    }
  }

  /** Every row of s references a resident key in ids (a foreign key). */
  predicate References<T>(s: seq<T>, owner: T -> nat, ids: set<nat>)
  {
    forall i :: 0 <= i < |s| ==> owner(s[i]) in ids
  }

  /** Every household's head and members are resident keys in ids. */
  predicate HouseholdsWithin(hs: seq<Household>, ids: set<nat>)
  {
    forall i :: 0 <= i < |hs| ==> hs[i].head in ids && hs[i].members <= ids
  }

  // ---------------------------------------------------------------- the database

  /** The rows of every table, and the next primary key the resident table
      hands out. */
  datatype Tables = Tables(
    residents: seq<Resident>,
    nextResidentId: nat,
    households: seq<Household>,
    seniorReports: seq<SeniorCitizenReport>,
    businessReports: seq<SariSariStoreReport>,
    fourPsReports: seq<FourPsBeneficiaryReport>,
    pregnancyReports: seq<PregnancyReport>,
    healthReports: seq<HealthReport>)
  {
    function Ids(): set<nat>
    {
      IdsOf(residents)
    }
  }

  const EmptyTables := Tables([], 0, [], [], [], [], [], [])

  /** Every constraint the schema declares holds of these tables. */
  ghost predicate Consistent(t: Tables)
  {
    DistinctKeys(t.residents, ResidentIdOf) &&
    (forall i :: 0 <= i < |t.residents| ==> t.residents[i].id < t.nextResidentId) &&
    HouseholdsWithin(t.households, t.Ids()) &&
    DistinctKeys(t.households, NumberOf) &&
    References(t.seniorReports, SeniorOwner, t.Ids()) &&
    DistinctKeys(t.seniorReports, SeniorOwner) &&
    References(t.businessReports, BusinessOwner, t.Ids()) &&
    References(t.fourPsReports, FourPsOwner, t.Ids()) &&
    DistinctKeys(t.fourPsReports, FourPsOwner) &&
    DistinctKeys(t.fourPsReports, FourPsHouseholdId) &&
    References(t.pregnancyReports, PregnancyOwner, t.Ids()) &&
    References(t.healthReports, HealthOwner, t.Ids())
  }

  /** The tables after resident id is deleted with everything that cascades
      from it. */
  function Delete(t: Tables, id: nat): (d: Tables)
    ensures d.nextResidentId == t.nextResidentId
    ensures |d.residents| <= |t.residents| && |d.households| <= |t.households|
    ensures |d.seniorReports| <= |t.seniorReports| && |d.businessReports| <= |t.businessReports|
    ensures |d.fourPsReports| <= |t.fourPsReports| && |d.pregnancyReports| <= |t.pregnancyReports|
    ensures |d.healthReports| <= |t.healthReports|
  {
    Tables(
      Cascade(t.residents, ResidentIdOf, id),
      t.nextResidentId,
      DropMember(Cascade(t.households, HeadOf, id), id),
      Cascade(t.seniorReports, SeniorOwner, id),
      Cascade(t.businessReports, BusinessOwner, id),
      Cascade(t.fourPsReports, FourPsOwner, id),
      Cascade(t.pregnancyReports, PregnancyOwner, id),
      Cascade(t.healthReports, HealthOwner, id))
  }

  /** Deleting a resident removes exactly its key. */
  lemma CascadeIds(rs: seq<Resident>, id: nat)
    ensures IdsOf(Cascade(rs, ResidentIdOf, id)) == IdsOf(rs) - {id}
  {
    var after := Cascade(rs, ResidentIdOf, id);
    CascadeRows(rs, ResidentIdOf, id);
    IdsOfRows(rs);
    IdsOfRows(after);
  }

  /** Rows left by a cascade only reference residents that are left. */
  lemma CascadeKeepsReferences<T(!new)>(s: seq<T>, owner: T -> nat, ids: set<nat>, id: nat)
    requires References(s, owner, ids)
    ensures References(Cascade(s, owner, id), owner, ids - {id})
  {
    var after := Cascade(s, owner, id);
    forall i | 0 <= i < |after|
      ensures owner(after[i]) in ids - {id}
    {
      var x := after[i];
      assert NotOwnedBy(owner, id)(x);
      assert x in after;
      assert x in s;
      var j :| 0 <= j < |s| && s[j] == x;
    }
  }

  /** Taking a resident out of the member sets keeps household numbers distinct. */
  lemma DropMemberKeepsNumbers(hs: seq<Household>, id: nat)
    requires DistinctKeys(hs, NumberOf)
    ensures DistinctKeys(DropMember(hs, id), NumberOf)
  {
  }

  /** Taking a resident out of the member sets of households it does not
      head leaves them referring to the other residents only. */
  lemma DropMemberReferences(hs: seq<Household>, ids: set<nat>, id: nat)
    requires HouseholdsWithin(hs, ids)
    requires forall i :: 0 <= i < |hs| ==> hs[i].head != id
    ensures HouseholdsWithin(DropMember(hs, id), ids - {id})
  {
  }

  /** Households left by a cascade only refer to residents that are left. */
  lemma CascadeHouseholds(hs: seq<Household>, ids: set<nat>, id: nat)
    requires HouseholdsWithin(hs, ids)
    ensures HouseholdsWithin(DropMember(Cascade(hs, HeadOf, id), id), ids - {id})
  {
    var heads := Cascade(hs, HeadOf, id);
    CascadeRows(hs, HeadOf, id);
    forall i | 0 <= i < |heads|
      ensures heads[i].head in ids && heads[i].head != id && heads[i].members <= ids
    {
      assert heads[i] in heads;
      var j :| 0 <= j < |hs| && hs[j] == heads[i];
    }
    DropMemberReferences(heads, ids, id);
  }

  /** Rows left by a cascade keep every key below the next one handed out. */
  lemma CascadeKeepsBound(rs: seq<Resident>, id: nat, next: nat)
    requires forall i :: 0 <= i < |rs| ==> rs[i].id < next
    ensures var after := Cascade(rs, ResidentIdOf, id);
      forall i :: 0 <= i < |after| ==> after[i].id < next
  {
    var after := Cascade(rs, ResidentIdOf, id);
    forall i | 0 <= i < |after|
      ensures after[i].id < next
    {
      assert after[i] in after;
      var j :| 0 <= j < |rs| && rs[j] == after[i];
    }
  }

  /** The resident and household tables keep their constraints through a delete. */
  lemma DeleteKeepsPeople(t: Tables, id: nat)
    requires Consistent(t)
    ensures var d := Delete(t, id);
      d.Ids() == t.Ids() - {id} &&
      DistinctKeys(d.residents, ResidentIdOf) &&
      (forall i :: 0 <= i < |d.residents| ==> d.residents[i].id < d.nextResidentId) &&
      HouseholdsWithin(d.households, d.Ids()) &&
      DistinctKeys(d.households, NumberOf)
  {
    CascadeIds(t.residents, id);
    CascadeKeepsBound(t.residents, id, t.nextResidentId);
    CascadeKeepsUnique(t.residents, ResidentIdOf, id, ResidentIdOf);
    CascadeHouseholds(t.households, t.Ids(), id);
    CascadeKeepsUnique(t.households, HeadOf, id, NumberOf);
    DropMemberKeepsNumbers(Cascade(t.households, HeadOf, id), id);
  }

  /** Deleting a resident with its cascade removes exactly its key and keeps
      every constraint. */
  lemma DeleteKeepsConsistent(t: Tables, id: nat)
    requires Consistent(t)
    ensures Delete(t, id).Ids() == t.Ids() - {id}
    ensures Consistent(Delete(t, id))
  {
    var ids := t.Ids();
    DeleteKeepsPeople(t, id);
    CascadeKeepsReferences(t.seniorReports, SeniorOwner, ids, id);
    CascadeKeepsUnique(t.seniorReports, SeniorOwner, id, SeniorOwner);
    CascadeKeepsReferences(t.businessReports, BusinessOwner, ids, id);
    CascadeKeepsReferences(t.fourPsReports, FourPsOwner, ids, id);
    CascadeKeepsUnique(t.fourPsReports, FourPsOwner, id, FourPsOwner);
    CascadeKeepsUnique(t.fourPsReports, FourPsOwner, id, FourPsHouseholdId);
    CascadeKeepsReferences(t.pregnancyReports, PregnancyOwner, ids, id);
    CascadeKeepsReferences(t.healthReports, HealthOwner, ids, id);
  }

  /** After the delete the resident's key is gone, and every resident row
      with another key is still there. */
  lemma DeleteLeavesNoResident(t: Tables, id: nat)
    ensures id !in Delete(t, id).Ids()
    ensures forall r :: r in Delete(t, id).residents <==> r in t.residents && r.id != id
  {
    CascadeRows(t.residents, ResidentIdOf, id);
    IdsOfRows(Delete(t, id).residents);
  }

  /** After the delete no household is headed by the deleted resident or
      counts it as a member, and every household headed by someone else is
      still there with the resident taken out of its members. */
  lemma DeleteLeavesNoHousehold(t: Tables, id: nat)
    ensures forall h :: h in Delete(t, id).households ==> h.head != id && id !in h.members
    ensures forall h :: h in t.households && h.head != id ==>
              h.(members := h.members - {id}) in Delete(t, id).households
  {
    DropKeepsOthers(t.households, id);
    var after := Delete(t, id).households;
    var heads := Cascade(t.households, HeadOf, id);
    forall h | h in after
      ensures h.head != id && id !in h.members
    {
      var i :| 0 <= i < |after| && after[i] == h;
      assert heads[i] in heads;
      assert NotOwnedBy(HeadOf, id)(heads[i]);
    }
  }

  /** Households headed by someone else survive the cascade, less the
      deleted member. */
  lemma DropKeepsOthers(hs: seq<Household>, id: nat)
    ensures forall h :: h in hs && h.head != id ==>
              h.(members := h.members - {id}) in DropMember(Cascade(hs, HeadOf, id), id)
  {
    var heads := Cascade(hs, HeadOf, id);
    var after := DropMember(heads, id);
    CascadeRows(hs, HeadOf, id);
    forall h | h in hs && h.head != id
      ensures h.(members := h.members - {id}) in after
    {
      assert h in heads;
      var i :| 0 <= i < |heads| && heads[i] == h;
      assert after[i] == h.(members := h.members - {id});
    }
  }

  /** After the delete no report refers to the deleted resident, and every
      report of someone else is still there. */
  lemma DeleteLeavesNoReport(t: Tables, id: nat)
    ensures forall s :: s in Delete(t, id).seniorReports <==> s in t.seniorReports && s.resident != id
    ensures forall b :: b in Delete(t, id).businessReports <==> b in t.businessReports && b.owner != id
    ensures forall f :: f in Delete(t, id).fourPsReports <==> f in t.fourPsReports && f.beneficiary != id
    ensures forall p :: p in Delete(t, id).pregnancyReports <==> p in t.pregnancyReports && p.pregnantWoman != id
    ensures forall h :: h in Delete(t, id).healthReports <==> h in t.healthReports && h.resident != id
  {
    CascadeRows(t.seniorReports, SeniorOwner, id);
    CascadeRows(t.businessReports, BusinessOwner, id);
    CascadeRows(t.fourPsReports, FourPsOwner, id);
    CascadeRows(t.pregnancyReports, PregnancyOwner, id);
    CascadeRows(t.healthReports, HealthOwner, id);
  }

  /** More residents never invalidate a foreign key. */
  lemma ReferencesGrow<T>(s: seq<T>, owner: T -> nat, ids: set<nat>, more: set<nat>)
    requires References(s, owner, ids) && ids <= more
    ensures References(s, owner, more)
  {
  }

  /** Saving a resident under the next key adds exactly that key and keeps
      every constraint. */
  lemma AddKeepsConsistent(t: Tables, r: Resident)
    requires Consistent(t)
    ensures t.nextResidentId !in t.Ids()
    ensures var t' := t.(residents := t.residents + [r.(id := t.nextResidentId)],
                         nextResidentId := t.nextResidentId + 1);
      t'.Ids() == t.Ids() + {t.nextResidentId} && Consistent(t')
  {
    var next := t.nextResidentId;
    var ids := t.Ids();
    var rs' := t.residents + [r.(id := next)];
    var t' := t.(residents := rs', nextResidentId := next + 1);
    IdsOfRows(t.residents);
    assert rs'[..|t.residents|] == t.residents;
    assert t'.Ids() == ids + {next};
    assert DistinctKeys(rs', ResidentIdOf);
    ReferencesGrow(t.seniorReports, SeniorOwner, ids, ids + {next});
    ReferencesGrow(t.businessReports, BusinessOwner, ids, ids + {next});
    ReferencesGrow(t.fourPsReports, FourPsOwner, ids, ids + {next});
    ReferencesGrow(t.pregnancyReports, PregnancyOwner, ids, ids + {next});
    ReferencesGrow(t.healthReports, HealthOwner, ids, ids + {next});
  }

  /** In consistent tables a resident has at most one senior-citizen report
      and at most one 4Ps report, and a 4Ps household id belongs to at most
      one report. */
  lemma OneToOne(t: Tables, id: nat, hid: string)
    requires Consistent(t)
    ensures |KeyedBy(t.seniorReports, SeniorOwner, id)| <= 1
    ensures |KeyedBy(t.fourPsReports, FourPsOwner, id)| <= 1
    ensures |KeyedBy(t.fourPsReports, FourPsHouseholdId, hid)| <= 1
  {
    DistinctKeysAtMostOne(t.seniorReports, SeniorOwner, id);
    DistinctKeysAtMostOne(t.fourPsReports, FourPsOwner, id);
    DistinctKeysAtMostOne(t.fourPsReports, FourPsHouseholdId, hid);
  }

  // ---------------------------------------------------------------- the registry

  /** The database the views read and the forms write: one set of tables,
      changed in place by saving and deleting rows. */
  class Registry {
    var tables: Tables

    ghost predicate Valid()
      reads this
    {
      Consistent(tables)
    }

    constructor ()
      ensures Valid() && tables == EmptyTables
    {
      tables := EmptyTables;
    }

    /** Saves a new resident under the next primary key and returns that key. */
    method AddResident(r: Resident) returns (id: nat)
      requires Valid()
      modifies this
      ensures Valid()
      ensures id == old(tables.nextResidentId) && id !in old(tables.Ids())
      ensures tables == old(tables).(residents := old(tables.residents) + [r.(id := id)],
                                     nextResidentId := id + 1)
      ensures tables.Ids() == old(tables.Ids()) + {id}
    {
      AddKeepsConsistent(tables, r);
      id := tables.nextResidentId;
      tables := tables.(residents := tables.residents + [r.(id := id)], nextResidentId := id + 1);
    }

    /** Saves a household: its head and members must exist and its number
        must be new. */
    method AddHousehold(h: Household) returns (res: Outcome)
      requires Valid()
      modifies this
      ensures Valid()
      ensures res == if h.head !in old(tables.Ids()) then Err(ForeignKeyViolation("household_head"))
                     else if !(h.members <= old(tables.Ids())) then Err(ForeignKeyViolation("members"))
                     else if exists x :: x in old(tables.households) && x.householdNumber == h.householdNumber
                       then Err(UniqueViolation("household_number"))
                     else Ok
      ensures tables == if res.Ok? then old(tables).(households := old(tables.households) + [h])
                        else old(tables)
    {
      if h.head !in tables.Ids() {
        res := Err(ForeignKeyViolation("household_head"));
      } else if !(h.members <= tables.Ids()) {
        res := Err(ForeignKeyViolation("members"));
      } else if exists x :: x in tables.households && x.householdNumber == h.householdNumber {
        res := Err(UniqueViolation("household_number"));
      } else {
        tables := tables.(households := tables.households + [h]);
        res := Ok;
      }
    }

    /** Saves a senior-citizen report: its resident must exist and must not
        have one already. */
    method AddSeniorCitizenReport(s: SeniorCitizenReport) returns (res: Outcome)
      requires Valid()
      modifies this
      ensures Valid()
      ensures res == if s.resident !in old(tables.Ids()) then Err(ForeignKeyViolation("resident"))
                     else if exists x :: x in old(tables.seniorReports) && x.resident == s.resident
                       then Err(UniqueViolation("resident"))
                     else Ok
      ensures tables == if res.Ok? then old(tables).(seniorReports := old(tables.seniorReports) + [s])
                        else old(tables)
    {
      if s.resident !in tables.Ids() {
        res := Err(ForeignKeyViolation("resident"));
      } else if exists x :: x in tables.seniorReports && x.resident == s.resident {
        res := Err(UniqueViolation("resident"));
      } else {
        tables := tables.(seniorReports := tables.seniorReports + [s]);
        res := Ok;
      }
    }

    /** Saves a store report: its owner must exist; an owner may have many. */
    method AddSariSariStoreReport(b: SariSariStoreReport) returns (res: Outcome)
      requires Valid()
      modifies this
      ensures Valid()
      ensures res == if b.owner !in old(tables.Ids()) then Err(ForeignKeyViolation("owner")) else Ok
      ensures tables == if res.Ok? then old(tables).(businessReports := old(tables.businessReports) + [b])
                        else old(tables)
    {
      if b.owner !in tables.Ids() {
        res := Err(ForeignKeyViolation("owner"));
      } else {
        tables := tables.(businessReports := tables.businessReports + [b]);
        res := Ok;
      }
    }

    /** Saves a 4Ps report: its beneficiary must exist and must not have one
        already, and its 4Ps household id must be new. */
    method AddFourPsBeneficiaryReport(f: FourPsBeneficiaryReport) returns (res: Outcome)
      requires Valid()
      modifies this
      ensures Valid()
      ensures res == if f.beneficiary !in old(tables.Ids()) then Err(ForeignKeyViolation("beneficiary"))
                     else if exists x :: x in old(tables.fourPsReports) && x.beneficiary == f.beneficiary
                       then Err(UniqueViolation("beneficiary"))
                     else if exists x :: x in old(tables.fourPsReports) && x.householdId == f.householdId
                       then Err(UniqueViolation("household_id"))
                     else Ok
      ensures tables == if res.Ok? then old(tables).(fourPsReports := old(tables.fourPsReports) + [f])
                        else old(tables)
    {
      if f.beneficiary !in tables.Ids() {
        res := Err(ForeignKeyViolation("beneficiary"));
      } else if exists x :: x in tables.fourPsReports && x.beneficiary == f.beneficiary {
        res := Err(UniqueViolation("beneficiary"));
      } else if exists x :: x in tables.fourPsReports && x.householdId == f.householdId {
        res := Err(UniqueViolation("household_id"));
      } else {
        tables := tables.(fourPsReports := tables.fourPsReports + [f]);
        res := Ok;
      }
    }

    /** Saves a pregnancy report: the woman must exist; she may have many. */
    method AddPregnancyReport(p: PregnancyReport) returns (res: Outcome)
      requires Valid()
      modifies this
      ensures Valid()
      ensures res == if p.pregnantWoman !in old(tables.Ids()) then Err(ForeignKeyViolation("pregnant_woman")) else Ok
      ensures tables == if res.Ok? then old(tables).(pregnancyReports := old(tables.pregnancyReports) + [p])
                        else old(tables)
    {
      if p.pregnantWoman !in tables.Ids() {
        res := Err(ForeignKeyViolation("pregnant_woman"));
      } else {
        tables := tables.(pregnancyReports := tables.pregnancyReports + [p]);
        res := Ok;
      }
    }

    /** Saves a health report: its resident must exist; they may have many. */
    method AddHealthReport(h: HealthReport) returns (res: Outcome)
      requires Valid()
      modifies this
      ensures Valid()
      ensures res == if h.resident !in old(tables.Ids()) then Err(ForeignKeyViolation("resident")) else Ok
      ensures tables == if res.Ok? then old(tables).(healthReports := old(tables.healthReports) + [h])
                        else old(tables)
    {
      if h.resident !in tables.Ids() {
        res := Err(ForeignKeyViolation("resident"));
      } else {
        tables := tables.(healthReports := tables.healthReports + [h]);
        res := Ok;
      }
    }

    /** Deletes a resident. Every report of the five kinds and every household
        it heads goes with it; it leaves every other household's members;
        every other row stays, in its order. */
    method DeleteResident(id: nat)
      requires Valid()
      modifies this
      ensures Valid()
      ensures tables == Delete(old(tables), id)
      ensures tables.Ids() == old(tables.Ids()) - {id}
    {
      DeleteKeepsConsistent(tables, id);
      tables := Delete(tables, id);
    }
  }
}
