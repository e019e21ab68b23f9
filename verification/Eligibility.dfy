/**
 * The eligibility query: join masters with their service areas, filter, keep each master's nearest row
 * (DISTINCT ON), sort by distance and cap. Distances are given by the database.
 */
module Eligibility {
  import opened Prelude
  import opened Scoring

  /** One service area: exact distance to the order, the same distance as reported, and the declared radius. */
  datatype Area = Area(meters: real, distanceM: int, radiusM: int)

  datatype Master = Master(
    id: MasterId, accountActive: bool, verified: bool, online: bool, trustTier: int, skills: set<CategoryId>,
    areas: seq<Area>, ratingAvg: real, jobsDone: nat, premium: bool, onActiveJob: bool, bookedToday: bool)

  datatype Query = Query(category: CategoryId, requiredTier: int, multiplier: real, limit: nat, offered: set<MasterId>)

  const MAX_RADIUS_M: int := 50_000

  predicate WithinPrefilter(a: Area, multiplier: real) {
    a.meters <= MAX_RADIUS_M as real * multiplier
  }

  predicate WithinOwnRadius(a: Area, multiplier: real) {
    a.meters <= a.radiusM as real * multiplier
  }

  predicate InRange(a: Area, multiplier: real) {
    WithinPrefilter(a, multiplier) && WithinOwnRadius(a, multiplier)
  }

  /** The specification of eligibility: the conditions of the matching rule, one by one, and some area that reaches the order. */
  predicate Eligible(m: Master, q: Query) {
    && m.accountActive
    && q.category in m.skills
    && m.verified
    && m.online
    && q.requiredTier <= m.trustTier
    && m.id !in q.offered
    && !m.onActiveJob
    && !m.bookedToday
    && exists a :: a in m.areas && InRange(a, q.multiplier)
  }

  // ---- The query, stage by stage ---------------------------------------------------

  /** The inner joins and the WHERE clause, but for the distances. */
  predicate PassesFilter(m: Master, q: Query) {
    && m.accountActive && q.category in m.skills
    && m.verified && m.online && m.trustTier >= q.requiredTier
    && m.id !in q.offered && !m.onActiveJob && !m.bookedToday
  }

  function RowOf(m: Master, a: Area): Candidate {
    Candidate(m.id, a.distanceM, m.ratingAvg, m.jobsDone, m.premium)
  }

  /** Join one master with its in-range areas. */
  function AreaRows(m: Master, areas: seq<Area>, q: Query): seq<Candidate> {
    if areas == [] then []
    else (if InRange(areas[0], q.multiplier) then [RowOf(m, areas[0])] else []) + AreaRows(m, areas[1..], q)
  }

  function JoinRows(world: seq<Master>, q: Query): seq<Candidate> {
    if world == [] then []
    else (if PassesFilter(world[0], q) then AreaRows(world[0], world[0].areas, q) else []) + JoinRows(world[1..], q)
  }

  datatype Ordering = ByMaster | ByDistance

  predicate Le(o: Ordering, a: Candidate, b: Candidate) {
    match o
    case ByMaster => a.master < b.master || (a.master == b.master && a.distanceM <= b.distanceM)
    case ByDistance => a.distanceM <= b.distanceM
  }

  predicate Sorted(o: Ordering, s: seq<Candidate>) {
    forall i, j :: 0 <= i < j < |s| ==> Le(o, s[i], s[j])
  }

  function Insert(o: Ordering, c: Candidate, s: seq<Candidate>): (r: seq<Candidate>)
    ensures multiset(r) == multiset(s) + multiset{c}
  {
    if s == [] || Le(o, c, s[0]) then [c] + s
    else
      assert s == [s[0]] + s[1..];
      [s[0]] + Insert(o, c, s[1..])
  }

  function Sort(o: Ordering, s: seq<Candidate>): (r: seq<Candidate>)
    ensures multiset(r) == multiset(s)
  {
    if s == [] then []
    else
      assert s == [s[0]] + s[1..];
      Insert(o, s[0], Sort(o, s[1..]))
  }

  /** DISTINCT ON (master): keep the first row of each run of equal masters. */
  function DistinctOn(s: seq<Candidate>): seq<Candidate> {
    if s == [] then []
    else
      var n := |s| - 1;
      DistinctOn(s[..n]) + (if n > 0 && s[n - 1].master == s[n].master then [] else [s[n]])
  }

  function Limit(s: seq<Candidate>, n: nat): seq<Candidate> {
    if |s| <= n then s else s[..n]
  }

  function FindEligible(world: seq<Master>, q: Query): seq<Candidate> {
    Limit(Sort(ByDistance, DistinctOn(Sort(ByMaster, JoinRows(world, q)))), q.limit)
  }

  // ---- Proof, stage by stage ---------------------------------------------------

  lemma {:induction false} InsertSorts(o: Ordering, c: Candidate, s: seq<Candidate>)
    requires Sorted(o, s)
    ensures Sorted(o, Insert(o, c, s))
  {
    if s == [] || Le(o, c, s[0]) {
    } else {
      InsertSorts(o, c, s[1..]);
      var r := Insert(o, c, s[1..]);
      forall x | x in r ensures Le(o, s[0], x) {
        assert x in multiset(r);
        assert x == c || x in s[1..];
      }
    }
  }

  lemma {:induction false} SortSorts(o: Ordering, s: seq<Candidate>)
    ensures Sorted(o, Sort(o, s))
  {
    if s != [] {
      SortSorts(o, s[1..]);
      InsertSorts(o, s[0], Sort(o, s[1..]));
    }
  }

  lemma SameElements(s: seq<Candidate>, t: seq<Candidate>, c: Candidate)
    requires multiset(s) == multiset(t)
    ensures c in s <==> c in t
  {
    assert c in s <==> c in multiset(s);
    assert c in t <==> c in multiset(t);
  }

  lemma {:induction false} AreaRowsSpec(m: Master, areas: seq<Area>, q: Query, c: Candidate)
    ensures c in AreaRows(m, areas, q) <==> exists a :: a in areas && InRange(a, q.multiplier) && c == RowOf(m, a)
  {
    if areas != [] {
      AreaRowsSpec(m, areas[1..], q, c);
      assert forall a :: a in areas <==> a == areas[0] || a in areas[1..];
    }
  }

  /** c is a row of the join: an eligible master of the world at one of its in-range areas. */
  predicate IsRow(world: seq<Master>, q: Query, c: Candidate) {
    exists m, a :: m in world && Eligible(m, q) && a in m.areas && InRange(a, q.multiplier) && c == RowOf(m, a)
  }

  lemma {:induction false} JoinRowsSpec(world: seq<Master>, q: Query, c: Candidate)
    ensures c in JoinRows(world, q) <==> IsRow(world, q, c)
  {
    if world != [] {
      JoinRowsSpec(world[1..], q, c);
      AreaRowsSpec(world[0], world[0].areas, q, c);
      assert forall m :: m in world <==> m == world[0] || m in world[1..];
    }
  }

  lemma {:induction false} DistinctOnSelects(s: seq<Candidate>, x: Candidate)
    requires x in DistinctOn(s)
    ensures x in s
  {
    var n := |s| - 1;
    if x in DistinctOn(s[..n]) {
      DistinctOnSelects(s[..n], x);
    }
  }

  predicate Ascending(s: seq<Candidate>) {
    forall i, j :: 0 <= i < j < |s| ==> s[i].master < s[j].master
  }

  lemma {:induction false} DistinctOnAscends(s: seq<Candidate>)
    requires Sorted(ByMaster, s)
    ensures Ascending(DistinctOn(s))
  {
    if s != [] {
      var n := |s| - 1;
      var t := s[..n];
      DistinctOnAscends(t);
      var r := DistinctOn(t);
      if n == 0 || s[n - 1].master != s[n].master {
        forall i | 0 <= i < |r| ensures r[i].master < s[n].master {
          DistinctOnSelects(t, r[i]);
          var k :| 0 <= k < n && s[k] == r[i];
          assert Le(ByMaster, s[k], s[n - 1]) || k == n - 1;
          assert Le(ByMaster, s[n - 1], s[n]);
        }
      }
    }
  }

  /** On a list sorted by master then distance, the row kept for a master is its nearest. */
  lemma {:induction false} DistinctOnKeepsNearest(s: seq<Candidate>, k: nat) returns (y: Candidate)
    requires Sorted(ByMaster, s) && k < |s|
    ensures y in DistinctOn(s) && y.master == s[k].master && y.distanceM <= s[k].distanceM
  {
    var n := |s| - 1;
    if k < n {
      y := DistinctOnKeepsNearest(s[..n], k);
    } else if n > 0 && s[n - 1].master == s[n].master {
      assert Le(ByMaster, s[n - 1], s[n]);
      y := DistinctOnKeepsNearest(s[..n], n - 1);
    } else {
      y := s[n];
    }
  }

  /** The nearest in-range row of a master: what the query is meant to report for it. */
  ghost predicate Best(world: seq<Master>, q: Query, c: Candidate) {
    && IsRow(world, q, c)
    && forall d :: IsRow(world, q, d) && d.master == c.master ==> c.distanceM <= d.distanceM
  }

  function Pool(world: seq<Master>, q: Query): seq<Candidate> {
    Sort(ByDistance, DistinctOn(Sort(ByMaster, JoinRows(world, q))))
  }

  predicate DistinctMasters(s: seq<Candidate>) {
    forall i, j :: 0 <= i < j < |s| ==> s[i].master != s[j].master
  }

  lemma {:induction false} SortKeepsDistinct(o: Ordering, s: seq<Candidate>)
    requires DistinctMasters(s)
    ensures DistinctMasters(Sort(o, s))
  {
    if s != [] {
      SortKeepsDistinct(o, s[1..]);
      forall x | x in Sort(o, s[1..]) ensures x.master != s[0].master {
        SameElements(Sort(o, s[1..]), s[1..], x);
      }
      InsertKeepsDistinct(o, s[0], Sort(o, s[1..]));
    }
  }

  lemma {:induction false} InsertKeepsDistinct(o: Ordering, c: Candidate, s: seq<Candidate>)
    requires DistinctMasters(s) && forall x :: x in s ==> x.master != c.master
    ensures DistinctMasters(Insert(o, c, s))
  {
    if s == [] || Le(o, c, s[0]) {
    } else {
      InsertKeepsDistinct(o, c, s[1..]);
      var r := Insert(o, c, s[1..]);
      forall x | x in r ensures x.master != s[0].master {
        assert x in multiset(r);
        assert x == c || x in s[1..];
      }
    }
  }

  lemma PoolShape(world: seq<Master>, q: Query)
    ensures Sorted(ByDistance, Pool(world, q)) && DistinctMasters(Pool(world, q))
  {
    var byMaster := Sort(ByMaster, JoinRows(world, q));
    SortSorts(ByMaster, JoinRows(world, q));
    DistinctOnAscends(byMaster);
    SortSorts(ByDistance, DistinctOn(byMaster));
    SortKeepsDistinct(ByDistance, DistinctOn(byMaster));
  }

  lemma PoolRowsAreRows(world: seq<Master>, q: Query, c: Candidate)
    requires c in Pool(world, q)
    ensures IsRow(world, q, c)
  {
    var byMaster := Sort(ByMaster, JoinRows(world, q));
    SameElements(Pool(world, q), DistinctOn(byMaster), c);
    DistinctOnSelects(byMaster, c);
    SameElements(byMaster, JoinRows(world, q), c);
    JoinRowsSpec(world, q, c);
  }

  /** Every row of the join is represented in the pool by its master's nearest row. */
  lemma PoolHasNearest(world: seq<Master>, q: Query, d: Candidate) returns (y: Candidate)
    requires IsRow(world, q, d)
    ensures y in Pool(world, q) && y.master == d.master && y.distanceM <= d.distanceM
  {
    var byMaster := Sort(ByMaster, JoinRows(world, q));
    SortSorts(ByMaster, JoinRows(world, q));
    JoinRowsSpec(world, q, d);
    SameElements(byMaster, JoinRows(world, q), d);
    var k :| 0 <= k < |byMaster| && byMaster[k] == d;
    y := DistinctOnKeepsNearest(byMaster, k);
    SameElements(Pool(world, q), DistinctOn(byMaster), y);
  }

  lemma PoolRowsAreBest(world: seq<Master>, q: Query, c: Candidate)
    requires c in Pool(world, q)
    ensures Best(world, q, c)
  {
    PoolRowsAreRows(world, q, c);
    PoolShape(world, q);
    forall d | IsRow(world, q, d) && d.master == c.master
      ensures c.distanceM <= d.distanceM
    {
      var y := PoolHasNearest(world, q, d);
      assert y == c;
    }
  }

  /** Represented on the page r, or left out of a full page on which everybody is at least as near. */
  ghost predicate Served(r: seq<Candidate>, limit: nat, c: Candidate) {
    || (exists d :: d in r && d.master == c.master)
    || (|r| == limit && forall d :: d in r ==> d.distanceM <= c.distanceM)
  }

  /** Whoever qualifies is on the page, or the page is full of masters at least as near. */
  lemma NobodyIsForgotten(world: seq<Master>, q: Query, c: Candidate)
    requires IsRow(world, q, c)
    ensures Served(FindEligible(world, q), q.limit, c)
  {
    PoolShape(world, q);
    var p := Pool(world, q);
    var r := FindEligible(world, q);
    var y := PoolHasNearest(world, q, c);
    var k :| 0 <= k < |p| && p[k] == y;
    if k < |r| {
      assert r[k] == y;
    } else {
      assert |r| == q.limit;
      forall d | d in r ensures d.distanceM <= c.distanceM {
        var i :| 0 <= i < |r| && r[i] == d;
        assert p[i] == d && Le(ByDistance, p[i], p[k]);
      }
    }
  }

  /**
   * The query against its specification: at most `limit` distinct masters, each at its nearest in-range area,
   * nearest first; and an eligible master is left out only when the page is full of masters at least as near.
   */
  lemma QueryRefinesSpec(world: seq<Master>, q: Query, c: Candidate)
    ensures var r := FindEligible(world, q);
            && |r| <= q.limit && Sorted(ByDistance, r) && DistinctMasters(r)
            && (c in r ==> Best(world, q, c))
            && (IsRow(world, q, c) ==> Served(r, q.limit, c))
  {
    PoolShape(world, q);
    if c in FindEligible(world, q) {
      assert c in Pool(world, q);
      PoolRowsAreBest(world, q, c);
    }
    if IsRow(world, q, c) { NobodyIsForgotten(world, q, c); }
  }

  /** No master of this world qualifies. */
  predicate Nobody(world: seq<Master>, q: Query) {
    forall m :: m in world ==> !Eligible(m, q)
  }

  /** The query comes back empty exactly when no master is eligible. */
  lemma EmptyMeansNobody(world: seq<Master>, q: Query)
    requires 0 < q.limit
    ensures FindEligible(world, q) == [] <==> Nobody(world, q)
  {
    var r := FindEligible(world, q);
    if m :| m in world && Eligible(m, q) {
      var a :| a in m.areas && InRange(a, q.multiplier);
      assert IsRow(world, q, RowOf(m, a));
      QueryRefinesSpec(world, q, RowOf(m, a));
    }
    if r != [] {
      assert r[0] in r;
      QueryRefinesSpec(world, q, r[0]);
      assert IsRow(world, q, r[0]);
    }
  }

  /** Whoever the query returns is an eligible master of the world that was not offered the order before. */
  lemma PickedIsEligible(world: seq<Master>, q: Query, c: Candidate)
    requires c in FindEligible(world, q)
    ensures c.master !in q.offered
    ensures exists m :: m in world && m.id == c.master && Eligible(m, q)
  {
    QueryRefinesSpec(world, q, c);
    assert IsRow(world, q, c);
  }

  /** The area reaches an order at this multiple of its radius, which no validated area exceeds 50 km with. */
  predicate Reaches(a: Area, multiplier: real) {
    a.meters <= a.radiusM as real * multiplier && a.meters <= 50_000.0 * multiplier
  }

  /**
   * Whoever is found meets every condition of the matching rule, and is reported with its own merits and at the
   * distance of its nearest area that reaches the order.
   */
  lemma FoundMeetsEveryCondition(world: seq<Master>, q: Query, c: Candidate)
    requires c in FindEligible(world, q)
    ensures exists m :: m in world && m.id == c.master
              && m.accountActive && q.category in m.skills && m.verified && m.online && m.trustTier >= q.requiredTier
              && m.id !in q.offered && !m.onActiveJob && !m.bookedToday
              && c == Candidate(m.id, c.distanceM, m.ratingAvg, m.jobsDone, m.premium)
              && (exists a :: a in m.areas && Reaches(a, q.multiplier) && a.distanceM == c.distanceM)
              && (forall a :: a in m.areas && Reaches(a, q.multiplier) ==> c.distanceM <= a.distanceM)
  {
    QueryRefinesSpec(world, q, c);
    var m, a :| m in world && Eligible(m, q) && a in m.areas && InRange(a, q.multiplier) && c == RowOf(m, a);
    assert Reaches(a, q.multiplier) && a.distanceM == c.distanceM;
    forall b | b in m.areas && Reaches(b, q.multiplier) ensures c.distanceM <= b.distanceM {
      assert InRange(b, q.multiplier) && IsRow(world, q, RowOf(m, b));
    }
  }

  lemma EligibleMeans(m: Master, q: Query)
    ensures Eligible(m, q)
            <==> && m.accountActive && q.category in m.skills && m.verified && m.online && m.trustTier >= q.requiredTier
                 && m.id !in q.offered && !m.onActiveJob && !m.bookedToday
                 && exists a :: a in m.areas && Reaches(a, q.multiplier)
  {
    forall a | a in m.areas ensures InRange(a, q.multiplier) <==> Reaches(a, q.multiplier) {
    }
  }

  /** Nobody is found exactly when no master of the world meets every condition. */
  lemma NobodyFoundIffNobodyQualifies(world: seq<Master>, q: Query)
    requires 0 < q.limit
    ensures FindEligible(world, q) == []
            <==> forall m :: m in world ==>
                   !(&& m.accountActive && q.category in m.skills && m.verified && m.online && m.trustTier >= q.requiredTier
                     && m.id !in q.offered && !m.onActiveJob && !m.bookedToday
                     && exists a :: a in m.areas && Reaches(a, q.multiplier))
  {
    EmptyMeansNobody(world, q);
    forall m | m in world
      ensures Eligible(m, q)
              <==> && m.accountActive && q.category in m.skills && m.verified && m.online && m.trustTier >= q.requiredTier
                   && m.id !in q.offered && !m.onActiveJob && !m.bookedToday
                   && exists a :: a in m.areas && Reaches(a, q.multiplier)
    {
      EligibleMeans(m, q);
    }
  }

  /** With areas as they are validated, within 50 km, the master's own radius alone decides. */
  lemma OwnRadiusDecides(a: Area, multiplier: real)
    requires a.radiusM <= 50_000 && 0.0 < multiplier
    ensures Reaches(a, multiplier) <==> a.meters <= a.radiusM as real * multiplier
  {
    Scales(a.radiusM as real, 50_000.0, multiplier);
  }

  lemma FoundIsKnown(world: seq<Master>, q: Query, i: nat, known: set<MasterId>)
    requires i < |FindEligible(world, q)| && forall m :: m in world ==> m.id in known
    ensures FindEligible(world, q)[i].master in known
  {
    PickedIsEligible(world, q, FindEligible(world, q)[i]);
  }

  /** The coarse prefilter is harmless for every distance exactly when the radius is at most 50 km. */
  lemma PrefilterIsHarmless(radiusM: int, multiplier: real)
    requires 0.0 < multiplier
    ensures (forall a: Area :: a.radiusM == radiusM && WithinOwnRadius(a, multiplier) ==> WithinPrefilter(a, multiplier))
            <==> radiusM <= MAX_RADIUS_M
  {
    var edge := Area(radiusM as real * multiplier, 0, radiusM);
    assert WithinOwnRadius(edge, multiplier);
    Scales(radiusM as real, MAX_RADIUS_M as real, multiplier);
    Scales(MAX_RADIUS_M as real, radiusM as real, multiplier);
  }

  lemma Scales(x: real, y: real, k: real)
    requires 0.0 < k
    ensures x <= y ==> x * k <= y * k
    ensures x * k <= y * k ==> x <= y
  {
    assert y * k - x * k == (y - x) * k;
    if x <= y { assert 0.0 <= (y - x) * k; } else { assert 0.0 < (x - y) * k; }
  }

  /** Widening the radius (factor at least 1, radii non-negative) never loses an eligible master. */
  lemma ExpansionKeepsEligible(m: Master, q: Query, factor: real)
    requires 1.0 <= factor && q.multiplier == 1.0
    requires forall a :: a in m.areas ==> 0 <= a.radiusM
    requires Eligible(m, q)
    ensures Eligible(m, q.(multiplier := factor))
  {
    var a :| a in m.areas && InRange(a, q.multiplier);
    var own, bound := a.radiusM as real, MAX_RADIUS_M as real;
    assert a.meters <= own && a.meters <= bound by { assert own * 1.0 == own && bound * 1.0 == bound; }
    Grows(own, factor);
    Grows(bound, factor);
    assert InRange(a, factor);
  }

  lemma Grows(x: real, factor: real)
    requires 0.0 <= x && 1.0 <= factor
    ensures x <= x * factor
  {
    assert 0.0 <= x * (factor - 1.0);
  }
}
