/** The voter reports: who counts as a voter, the per-precinct chart, the
    voter list in precinct order, and the voters grouped by precinct. */
module Voters {
  import opened Text
  import opened Seqs
  import opened Residents

  // ---------------------------------------------------------------- who is a voter

  /** `voters_id > ''`, `precinct_number > ''` and active. */
  predicate IsVoter(r: Resident)
  {
    Less("", r.votersId) && Less("", r.precinctNumber) && r.isActive
  }

  /** Being above the empty string is being non-empty. */
  lemma IsVoterNonEmpty(r: Resident)
    ensures IsVoter(r) <==> r.votersId != "" && r.precinctNumber != "" && r.isActive
  {
    AboveEmpty(r.votersId);
    AboveEmpty(r.precinctNumber);
  }

  function PrecinctOf(r: Resident): string { r.precinctNumber }

  function InPrecinct(k: string): Resident -> bool
  {
    (r: Resident) => r.precinctNumber == k
  }

  // ---------------------------------------------------------------- voters_report

  /** By precinct number, then by last name and first name. */
  predicate VoterOrder(a: Resident, b: Resident)
  {
    Less(a.precinctNumber, b.precinctNumber) ||
    (a.precinctNumber == b.precinctNumber && NameOrder(a, b))
  }

  lemma VoterOrderTotal()
    ensures TotalPreorder(VoterOrder)
  {
    NameOrderTotal();
    forall x: Resident, y: Resident
      ensures VoterOrder(x, y) || VoterOrder(y, x)
    {
      LessTotal(x.precinctNumber, y.precinctNumber);
    }
    forall x: Resident, y: Resident, z: Resident | VoterOrder(x, y) && VoterOrder(y, z)
      ensures VoterOrder(x, z)
    {
      if Less(x.precinctNumber, y.precinctNumber) && Less(y.precinctNumber, z.precinctNumber) {
        LessTransitive(x.precinctNumber, y.precinctNumber, z.precinctNumber);
      }
    }
  }

  /** Inside one precinct the voter order is the name order. */
  lemma SamePrecinctOrder(k: string)
    ensures forall x, y :: InPrecinct(k)(x) && InPrecinct(k)(y) && VoterOrder(x, y) ==> NameOrder(x, y)
  {
    LessIrreflexive(k);
  }

  /** The effective `voters_report`: every voter, in precinct and name order. */
  function VotersReport(rs: seq<Resident>): (v: seq<Resident>)
    ensures forall r :: r in v <==> r in rs && IsVoter(r)
    ensures SortedBy(v, VoterOrder)
    ensures multiset(v) == multiset(Filter(rs, IsVoter))
  {
    VoterOrderTotal();
    Sort(Filter(rs, IsVoter), VoterOrder)
  }

  // ---------------------------------------------------------------- voters_precinct_dashboard

  /** What the precinct chart receives. */
  datatype PrecinctChart = PrecinctChart(labels: seq<string>, totals: seq<nat>, data: seq<Bucket>)

  /** The number of voters at precinct k is its multiplicity in the precinct column. */
  lemma CountIsMultiplicity(s: seq<Resident>, k: string)
    ensures Count(s, InPrecinct(k)) == multiset(Project(s, PrecinctOf))[k]
  {
    KeyCountIsMultiplicity(s, PrecinctOf, k, InPrecinct(k));
  }

  /** `voters_precinct_dashboard`: one label per precinct that has a voter,
      ascending, and beside it the number of voters registered there. */
  function PrecinctDashboard(rs: seq<Resident>): (c: PrecinctChart)
    ensures |c.labels| == |c.totals| == |c.data|
    ensures forall i, j :: 0 <= i < j < |c.labels| ==> Less(c.labels[i], c.labels[j])
    ensures forall k :: k in c.labels <==> exists r :: r in rs && IsVoter(r) && r.precinctNumber == k
    ensures forall i :: 0 <= i < |c.totals| ==>
              c.totals[i] >= 1 && c.totals[i] == Count(Filter(rs, IsVoter), InPrecinct(c.labels[i]))
    ensures Sum(c.totals) == Count(rs, IsVoter)
  {
    var voters := Filter(rs, IsVoter);
    var data := Tally(Project(voters, PrecinctOf));
    forall k ensures k in Project(voters, PrecinctOf) <==> exists r :: r in rs && IsVoter(r) && r.precinctNumber == k {
      ProjectMembers(voters, PrecinctOf, k);
    }
    forall i | 0 <= i < |data| ensures data[i].count == Count(voters, InPrecinct(data[i].key)) {
      TallyCounts(Project(voters, PrecinctOf), i);
      CountIsMultiplicity(voters, data[i].key);
    }
    PrecinctChart(Labels(data), Totals(data), data)
  }

  // ---------------------------------------------------------------- voters_by_precinct_report

  /** The list sizes of the groups, taken in key order. */
  function GroupTotal(order: seq<string>, m: map<string, seq<Resident>>): nat
  {
    if order == [] then 0
    else
      var k := order[|order| - 1];
      GroupTotal(order[..|order| - 1], m) + (if k in m then |m[k]| else 0)
  }

  /** Changing a group that is not listed leaves the total alone. */
  lemma {:induction false} GroupTotalOther(order: seq<string>, m: map<string, seq<Resident>>, k: string, g: seq<Resident>)
    requires k !in order
    ensures GroupTotal(order, m[k := g]) == GroupTotal(order, m)
  {
    if order != [] {
      assert order[..|order| - 1] <= order;
      GroupTotalOther(order[..|order| - 1], m, k, g);
    }
  }

  /** Appending one voter to a group listed once adds one to the total. */
  lemma {:induction false} GroupTotalAppend(order: seq<string>, m: map<string, seq<Resident>>, k: string, v: Resident)
    requires k in order && k in m
    requires forall a, b :: 0 <= a < b < |order| ==> order[a] != order[b]
    ensures GroupTotal(order, m[k := m[k] + [v]]) == GroupTotal(order, m) + 1
  {
    var init, last := order[..|order| - 1], order[|order| - 1];
    assert order == init + [last];
    if last == k {
      assert k !in init;
      GroupTotalOther(init, m, k, m[k] + [v]);
    } else {
      assert k in init;
      GroupTotalAppend(init, m, k, v);
    }
  }

  /** The keys listed are the keys of the dictionary, each listed once. */
  ghost predicate KeysListed(order: seq<string>, m: map<string, seq<Resident>>)
  {
    (forall k :: k in order <==> k in m) &&
    (forall a, b :: 0 <= a < b < |order| ==> order[a] != order[b])
  }

  /** The voters among the first n of `s` registered at precinct k: the list
      the loop has built for k after n rounds. */
  function PrecinctPrefix(s: seq<Resident>, n: nat, k: string): seq<Resident>
    requires n <= |s|
  {
    if n == 0 then []
    else PrecinctPrefix(s, n - 1, k) + (if s[n - 1].precinctNumber == k then [s[n - 1]] else [])
  }

  lemma {:induction false} PrecinctPrefixIsFilter(s: seq<Resident>, n: nat, k: string)
    requires n <= |s|
    ensures PrecinctPrefix(s, n, k) == Filter(s[..n], InPrecinct(k))
  {
    if n > 0 {
      PrecinctPrefixIsFilter(s, n - 1, k);
      FilterPrefixStep(s, n - 1, InPrecinct(k));
    }
  }

  /** No voter among the first n is at precinct k, so its list is empty. */
  lemma {:induction false} PrecinctPrefixEmpty(s: seq<Resident>, n: nat, k: string)
    requires n <= |s|
    requires forall j :: 0 <= j < n ==> s[j].precinctNumber != k
    ensures PrecinctPrefix(s, n, k) == []
  {
    if n > 0 {
      PrecinctPrefixEmpty(s, n - 1, k);
    }
  }

  /** What the loop has built after reading the first n voters: the keys
      without repeats, each with the non-empty list of the voters read so far
      in that precinct, every voter read in some list, and the list sizes
      adding up to the number of voters read. */
  ghost predicate Grouped(voters: seq<Resident>, n: nat, order: seq<string>, m: map<string, seq<Resident>>)
    requires n <= |voters|
  {
    KeysListed(order, m) &&
    (forall k :: k in m ==> m[k] == PrecinctPrefix(voters, n, k) && m[k] != []) &&
    (forall j :: 0 <= j < n ==> voters[j].precinctNumber in m) &&
    GroupTotal(order, m) == n
  }

  /** The key order after reading the first n voters of a list sorted by
      precinct: ascending, ending with the precinct of the last voter read. */
  ghost predicate KeysAscending(voters: seq<Resident>, n: nat, order: seq<string>)
    requires n <= |voters|
  {
    (forall a, b :: 0 <= a < b < |order| ==> Less(order[a], order[b])) &&
    (n == 0 ==> order == []) &&
    (n > 0 ==> |order| > 0 && order[|order| - 1] == voters[n - 1].precinctNumber)
  }

  /** Reading voters in precinct order, a precinct is first met after every
      precinct already listed, so first-seen order is ascending order. */
  lemma OrderStep(voters: seq<Resident>, n: nat, order: seq<string>, m: map<string, seq<Resident>>)
    requires 0 < n <= |voters| && SortedBy(voters, VoterOrder)
    requires forall k :: k in order <==> k in m
    requires KeysAscending(voters, n - 1, order)
    ensures KeysAscending(voters, n, Listed(order, m, voters[n - 1]))
  {
    var k := voters[n - 1].precinctNumber;
    if n > 1 {
      var last := order[|order| - 1];
      assert VoterOrder(voters[n - 2], voters[n - 1]);
      if k in m {
        if last != k {
          var a :| 0 <= a < |order| && order[a] == k;
          if a < |order| - 1 {
            LessAsymmetric(k, last);
          } else {
            LessIrreflexive(k);
          }
        }
      } else {
        forall a | 0 <= a < |order|
          ensures Less(order[a], k)
        {
          if a < |order| - 1 {
            LessTransitive(order[a], last, k);
          }
        }
      }
    }
  }

  /** The dictionary after `precincts[v.precinct_number].append(v)`. */
  function Filed(m: map<string, seq<Resident>>, v: Resident): map<string, seq<Resident>>
  {
    m[v.precinctNumber := (if v.precinctNumber in m then m[v.precinctNumber] else []) + [v]]
  }

  /** The key order after the same step: a new precinct goes last. */
  function Listed(order: seq<string>, m: map<string, seq<Resident>>, v: Resident): seq<string>
  {
    if v.precinctNumber in m then order else order + [v.precinctNumber]
  }

  /** The round that reads voter n - 1 keeps `Grouped`. */
  lemma GroupStep(voters: seq<Resident>, n: nat, order: seq<string>, m: map<string, seq<Resident>>)
    requires 0 < n <= |voters| && Grouped(voters, n - 1, order, m)
    ensures Grouped(voters, n, Listed(order, m, voters[n - 1]), Filed(m, voters[n - 1]))
  {
    var v := voters[n - 1];
    KeysStep(order, m, v);
    TotalStep(order, m, v);
    ListsStep(voters, n, m);
  }

  /** The key order and the dictionary after the loop has read the first n
      voters. */
  function Grouping(voters: seq<Resident>, n: nat): (seq<string>, map<string, seq<Resident>>)
    requires n <= |voters|
  {
    if n == 0 then ([], map[])
    else
      var g := Grouping(voters, n - 1);
      (Listed(g.0, g.1, voters[n - 1]), Filed(g.1, voters[n - 1]))
  }

  /** One more round of the loop: the grouping of the first i + 1 voters
      is one step on from that of the first i. */
  lemma GroupingNext(voters: seq<Resident>, i: nat)
    requires i < |voters|
    ensures var g := Grouping(voters, i);
      Grouping(voters, i + 1) == (Listed(g.0, g.1, voters[i]), Filed(g.1, voters[i]))
  {
  }

  /** Over voters sorted by precinct, the grouping after any number of
      rounds satisfies both invariants. */
  lemma {:induction false} GroupingInvariant(voters: seq<Resident>, n: nat)
    requires n <= |voters| && SortedBy(voters, VoterOrder)
    ensures Grouped(voters, n, Grouping(voters, n).0, Grouping(voters, n).1)
    ensures KeysAscending(voters, n, Grouping(voters, n).0)
  {
    if n > 0 {
      GroupingInvariant(voters, n - 1);
      GroupingStep(voters, n);
    }
  }

  /** One more round keeps both invariants. */
  lemma GroupingStep(voters: seq<Resident>, n: nat)
    requires 0 < n <= |voters| && SortedBy(voters, VoterOrder)
    requires Grouped(voters, n - 1, Grouping(voters, n - 1).0, Grouping(voters, n - 1).1)
    requires KeysAscending(voters, n - 1, Grouping(voters, n - 1).0)
    ensures Grouped(voters, n, Grouping(voters, n).0, Grouping(voters, n).1)
    ensures KeysAscending(voters, n, Grouping(voters, n).0)
  {
    var (order, m) := Grouping(voters, n - 1);
    var v := voters[n - 1];
    assert Grouping(voters, n) == (Listed(order, m, v), Filed(m, v));
    OrderStep(voters, n, order, m);
    GroupStep(voters, n, order, m);
  }

  /** Appending the next voter to its precinct's list keeps every list equal
      to that precinct's voters among those read. */
  lemma ListsStep(voters: seq<Resident>, n: nat, m: map<string, seq<Resident>>)
    requires 0 < n <= |voters|
    requires forall k :: k in m ==> m[k] == PrecinctPrefix(voters, n - 1, k) && m[k] != []
    requires forall j :: 0 <= j < n - 1 ==> voters[j].precinctNumber in m
    ensures forall k :: k in Filed(m, voters[n - 1]) ==>
              Filed(m, voters[n - 1])[k] == PrecinctPrefix(voters, n, k) && Filed(m, voters[n - 1])[k] != []
    ensures forall j :: 0 <= j < n ==> voters[j].precinctNumber in Filed(m, voters[n - 1])
  {
    var m' := Filed(m, voters[n - 1]);
    forall k | k in m'
      ensures m'[k] == PrecinctPrefix(voters, n, k) && m'[k] != []
    {
      if k == voters[n - 1].precinctNumber && k !in m {
        PrecinctPrefixEmpty(voters, n - 1, k);
      }
    }
  }

  lemma KeysStep(order: seq<string>, m: map<string, seq<Resident>>, v: Resident)
    requires KeysListed(order, m)
    ensures KeysListed(Listed(order, m, v), Filed(m, v))
  {
  }

  lemma TotalStep(order: seq<string>, m: map<string, seq<Resident>>, v: Resident)
    requires KeysListed(order, m)
    ensures GroupTotal(Listed(order, m, v), Filed(m, v)) == GroupTotal(order, m) + 1
  {
    var k := v.precinctNumber;
    if k in m {
      assert k in order;
      assert Listed(order, m, v) == order;
      assert Filed(m, v) == m[k := m[k] + [v]];
      GroupTotalAppend(order, m, k, v);
    } else {
      assert k !in order;
      assert [] + [v] == [v];
      assert Filed(m, v) == m[k := [v]];
      GroupTotalOther(order, m, k, [v]);
      assert (order + [k])[..|order|] == order;
    }
  }

  /** What a finished grouping of the voters report says about its lists:
      each is sorted by name and holds exactly the voters of its precinct. */
  lemma GroupedReport(rs: seq<Resident>, order: seq<string>, precincts: map<string, seq<Resident>>)
    requires Grouped(VotersReport(rs), |VotersReport(rs)|, order, precincts)
    requires KeysAscending(VotersReport(rs), |VotersReport(rs)|, order)
    ensures forall k :: k in order <==> k in precincts
    ensures forall a, b :: 0 <= a < b < |order| ==> order[a] != order[b]
    ensures forall a, b :: 0 <= a < b < |order| ==> Less(order[a], order[b])
    ensures forall k :: k in precincts ==> precincts[k] == Filter(VotersReport(rs), InPrecinct(k))
    ensures forall k :: k in precincts ==> precincts[k] != [] && SortedBy(precincts[k], NameOrder)
    ensures forall r :: r in VotersReport(rs) ==> r.precinctNumber in precincts
    ensures forall k, r :: k in precincts ==> (r in precincts[k] <==> r in rs && IsVoter(r) && r.precinctNumber == k)
    ensures GroupTotal(order, precincts) == |VotersReport(rs)|
  {
    var voters := VotersReport(rs);
    FinishedGrouping(voters, order, precincts);
    FinishedLists(rs, precincts);
  }

  /** The grouping the loop builds over the whole voters report. */
  lemma ReportGrouping(rs: seq<Resident>, order: seq<string>, precincts: map<string, seq<Resident>>)
    requires (order, precincts) == Grouping(VotersReport(rs), |VotersReport(rs)|)
    ensures forall k :: k in order <==> k in precincts
    ensures forall a, b :: 0 <= a < b < |order| ==> order[a] != order[b]
    ensures forall k :: k in precincts ==> precincts[k] == Filter(VotersReport(rs), InPrecinct(k))
    ensures forall k :: k in precincts ==> precincts[k] != [] && SortedBy(precincts[k], NameOrder)
    ensures forall r :: r in VotersReport(rs) ==> r.precinctNumber in precincts
    ensures forall k, r :: k in precincts ==> (r in precincts[k] <==> r in rs && IsVoter(r) && r.precinctNumber == k)
    ensures forall a, b :: 0 <= a < b < |order| ==> Less(order[a], order[b])
    ensures GroupTotal(order, precincts) == |VotersReport(rs)|
  {
    var voters := VotersReport(rs);
    GroupingInvariant(voters, |voters|);
    GroupedReport(rs, order, precincts);
  }

  /** Once every voter is read, each list is the voters filtered to its
      precinct and every voter has been filed. */
  lemma FinishedGrouping(voters: seq<Resident>, order: seq<string>, precincts: map<string, seq<Resident>>)
    requires Grouped(voters, |voters|, order, precincts)
    ensures forall k :: k in order <==> k in precincts
    ensures forall a, b :: 0 <= a < b < |order| ==> order[a] != order[b]
    ensures forall k :: k in precincts ==> precincts[k] == Filter(voters, InPrecinct(k)) && precincts[k] != []
    ensures forall r :: r in voters ==> r.precinctNumber in precincts
    ensures GroupTotal(order, precincts) == |voters|
  {
    assert voters[..|voters|] == voters;
    forall k | k in precincts
      ensures precincts[k] == Filter(voters, InPrecinct(k))
    {
      PrecinctPrefixIsFilter(voters, |voters|, k);
    }
    forall r | r in voters
      ensures r.precinctNumber in precincts
    {
      var j :| 0 <= j < |voters| && voters[j] == r;
    }
  }

  /** Lists that are the sorted report filtered to their precinct are in name
      order and hold exactly that precinct's voters. */
  lemma FinishedLists(rs: seq<Resident>, precincts: map<string, seq<Resident>>)
    requires forall k :: k in precincts ==> precincts[k] == Filter(VotersReport(rs), InPrecinct(k))
    ensures forall k :: k in precincts ==> SortedBy(precincts[k], NameOrder)
    ensures forall k, r :: k in precincts ==> (r in precincts[k] <==> r in rs && IsVoter(r) && r.precinctNumber == k)
  {
    var voters := VotersReport(rs);
    forall k | k in precincts
      ensures SortedBy(precincts[k], NameOrder)
    {
      SamePrecinctOrder(k);
      FilterSorted(voters, VoterOrder, InPrecinct(k), NameOrder);
    }
    forall k, r | k in precincts
      ensures r in precincts[k] <==> r in rs && IsVoter(r) && r.precinctNumber == k
    {
      assert r in precincts[k] <==> r in voters && InPrecinct(k)(r);
    }
  }

  /** `voters_by_precinct_report`: the voters of `voters_report`, appended
      one by one to the list of their precinct; the dictionary's keys keep
      the order in which precincts were first met, which is ascending. */
  method VotersByPrecinctReport(rs: seq<Resident>) returns (order: seq<string>, precincts: map<string, seq<Resident>>)
    ensures forall k :: k in order <==> k in precincts
    ensures forall a, b :: 0 <= a < b < |order| ==> order[a] != order[b]
    ensures forall k :: k in precincts ==> precincts[k] == Filter(VotersReport(rs), InPrecinct(k))
    ensures forall k :: k in precincts ==> precincts[k] != [] && SortedBy(precincts[k], NameOrder)
    ensures forall r :: r in VotersReport(rs) ==> r.precinctNumber in precincts
    ensures forall k, r :: k in precincts ==> (r in precincts[k] <==> r in rs && IsVoter(r) && r.precinctNumber == k)
    ensures forall a, b :: 0 <= a < b < |order| ==> Less(order[a], order[b])
    ensures GroupTotal(order, precincts) == |VotersReport(rs)|
  {
    var voters := VotersReport(rs);
    order, precincts := [], map[];
    var i := 0;
    while i < |voters|
      invariant 0 <= i <= |voters|
      invariant (order, precincts) == Grouping(voters, i)
    {
      var voter := voters[i];
      var key := voter.precinctNumber;
      GroupingNext(voters, i);
      if key !in precincts {
        order := order + [key];
      }
      precincts := precincts[key := (if key in precincts then precincts[key] else []) + [voter]];
      i := i + 1;
    }
    ReportGrouping(rs, order, precincts);
  }

  /** The chart and the voters report agree: a precinct has a bar exactly
      when the report has voters there, and the bar is their number. With
      `VotersByPrecinctReport`, whose lists are these filters, the chart's
      labels are the grouping's keys and each bar its list's length. */
  lemma ChartMatchesGroups(rs: seq<Resident>)
    ensures var c, voters := PrecinctDashboard(rs), VotersReport(rs);
      (forall k :: k in c.labels <==> Filter(voters, InPrecinct(k)) != []) &&
      forall i :: 0 <= i < |c.totals| ==> |Filter(voters, InPrecinct(c.labels[i]))| == c.totals[i]
  {
    var c, voters := PrecinctDashboard(rs), VotersReport(rs);
    LabelsAgree(rs, voters, c.labels);
    TotalsAgree(rs, voters, c.labels, c.totals);
  }

  /** The labels part of `ChartMatchesGroups`, for any labels and voters
      meeting the contracts of `PrecinctDashboard` and `VotersReport`. */
  lemma LabelsAgree(rs: seq<Resident>, voters: seq<Resident>, labels: seq<string>)
    requires forall r :: r in voters <==> r in rs && IsVoter(r)
    requires forall k :: k in labels <==> exists r :: r in rs && IsVoter(r) && r.precinctNumber == k
    ensures forall k :: k in labels <==> Filter(voters, InPrecinct(k)) != []
  {
    forall k | k in labels
      ensures Filter(voters, InPrecinct(k)) != []
    {
      var r :| r in rs && IsVoter(r) && r.precinctNumber == k;
      assert r in Filter(voters, InPrecinct(k));
    }
    forall k | Filter(voters, InPrecinct(k)) != []
      ensures k in labels
    {
      var r := Filter(voters, InPrecinct(k))[0];
      assert r in Filter(voters, InPrecinct(k));
      assert r in rs && IsVoter(r) && r.precinctNumber == k;
    }
  }

  /** The totals part of `ChartMatchesGroups`: a bar counted over the
      filtered rows is the same count over any reordering of them. */
  lemma TotalsAgree(rs: seq<Resident>, voters: seq<Resident>, labels: seq<string>, totals: seq<nat>)
    requires multiset(voters) == multiset(Filter(rs, IsVoter))
    requires |labels| == |totals|
    requires forall i :: 0 <= i < |totals| ==> totals[i] == Count(Filter(rs, IsVoter), InPrecinct(labels[i]))
    ensures forall i :: 0 <= i < |totals| ==> |Filter(voters, InPrecinct(labels[i]))| == totals[i]
  {
    forall i | 0 <= i < |totals|
      ensures |Filter(voters, InPrecinct(labels[i]))| == totals[i]
    {
      FilterPermutation(voters, Filter(rs, IsVoter), InPrecinct(labels[i]));
    }
  }
}
