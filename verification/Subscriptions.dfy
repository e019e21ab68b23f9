/** Premium trials that expire lazily: reading the status may heal the row, and nobody can tell. */
module Subscriptions {
  import opened Prelude

  const TRIAL_MS: int := 1_209_600_000

  datatype Plan = Free | Premium

  datatype SubscriptionStatus = Active | Trial | Expired | Cancelled

  datatype Row = Row(plan: Plan, status: SubscriptionStatus, trialEndsAt: Option<int>)

  datatype Event = Read(now: int) | Upgrade(now: int)

  predicate CountsAsPremium(row: Row) {
    row.plan == Premium && (row.status == Active || row.status == Trial)
  }

  /** The row as a read leaves it: an elapsed trial is written back as expired. */
  function Healed(row: Option<Row>, now: int): Option<Row> {
    if row.Some? && row.value.status == Trial && row.value.trialEndsAt.Some? && row.value.trialEndsAt.value < now
    then Some(row.value.(status := Expired)) else row
  }

  /** What a read at this instant answers. */
  predicate IsPremiumActive(row: Option<Row>, now: int) {
    var healed := Healed(row, now);
    healed.Some? && CountsAsPremium(healed.value)
  }

  function Step(row: Option<Row>, e: Event): Option<Row> {
    match e
    case Read(now) => Healed(row, now)
    case Upgrade(now) =>
      if IsPremiumActive(row, now) then Healed(row, now) else Some(Row(Premium, Trial, Some(now + TRIAL_MS)))
  }

  function Run(row: Option<Row>, events: seq<Event>): Option<Row>
    decreases |events|
  {
    if events == [] then row else Run(Step(row, events[0]), events[1..])
  }

  /** The condition under which the dispatch query treats a master as premium. */
  predicate SqlPremium(row: Option<Row>, now: int) {
    && row.Some? && row.value.plan == Premium
    && (row.value.status == Active
        || (row.value.status == Trial && row.value.trialEndsAt.Some? && row.value.trialEndsAt.value > now))
  }

  // ---- The specification ----------------------------------------------------------

  /** Premium lasts from the last upgrade until fourteen days later, that instant included. */
  predicate PremiumSince(upgraded: Option<int>, now: int) {
    upgraded.Some? && now - upgraded.value <= 14 * 24 * 60 * 60 * 1_000
  }

  /** The last upgrade that was not refused, judging by the upgrades alone. */
  function LastUpgrade(upgraded: Option<int>, events: seq<Event>): Option<int>
    decreases |events|
  {
    if events == [] then upgraded
    else LastUpgrade(if events[0].Upgrade? && !PremiumSince(upgraded, events[0].now) then Some(events[0].now) else upgraded,
                     events[1..])
  }

  function OnlyUpgrades(events: seq<Event>): seq<Event> {
    if events == [] then []
    else (if events[0].Upgrade? then [events[0]] else []) + OnlyUpgrades(events[1..])
  }

  /** Times never go back, and none is after `now`. */
  predicate InOrder(from: int, events: seq<Event>, now: int)
    decreases |events|
  {
    if events == [] then from <= now else from <= events[0].now && InOrder(events[0].now, events[1..], now)
  }

  /** The row is that of the given upgrade, healed or not, at an instant not before `since`. */
  predicate RowOf(row: Option<Row>, upgraded: Option<int>, since: int) {
    match upgraded
    case None => row.None?
    case Some(u) =>
      || row == Some(Row(Premium, Trial, Some(u + TRIAL_MS)))
      || (row == Some(Row(Premium, Expired, Some(u + TRIAL_MS))) && u + TRIAL_MS < since)
  }

  lemma {:induction false} RowFollowsUpgrades(row: Option<Row>, upgraded: Option<int>, from: int, events: seq<Event>, now: int)
    requires RowOf(row, upgraded, from) && InOrder(from, events, now)
    ensures RowOf(Run(row, events), LastUpgrade(upgraded, events), now)
    decreases |events|
  {
    if events != [] {
      var e := events[0];
      var next := if e.Upgrade? && !PremiumSince(upgraded, e.now) then Some(e.now) else upgraded;
      assert RowOf(Step(row, e), next, e.now);
      RowFollowsUpgrades(Step(row, e), next, e.now, events[1..], now);
    }
  }

  lemma {:induction false} ReadsDoNotCount(upgraded: Option<int>, events: seq<Event>)
    ensures LastUpgrade(upgraded, OnlyUpgrades(events)) == LastUpgrade(upgraded, events)
    decreases |events|
  {
    if events != [] {
      var next := if events[0].Upgrade? && !PremiumSince(upgraded, events[0].now) then Some(events[0].now) else upgraded;
      ReadsDoNotCount(next, events[1..]);
      if events[0].Upgrade? {
        assert OnlyUpgrades(events)[0] == events[0] && OnlyUpgrades(events)[1..] == OnlyUpgrades(events[1..]);
      } else {
        assert OnlyUpgrades(events) == OnlyUpgrades(events[1..]);
      }
    }
  }

  /** Whatever was read and upgraded before, a read answers as the last upgrade and the clock alone decide. */
  lemma PremiumIsSinceLastUpgrade(from: int, events: seq<Event>, now: int)
    requires InOrder(from, events, now)
    ensures IsPremiumActive(Run(None, events), now) <==> PremiumSince(LastUpgrade(None, events), now)
  {
    RowFollowsUpgrades(None, None, from, events, now);
  }

  /** Healing is unobservable: two histories with the same upgrades and any reads answer alike ever after. */
  lemma HealingIsUnobservable(from: int, events: seq<Event>, others: seq<Event>, now: int)
    requires InOrder(from, events, now) && InOrder(from, others, now)
    requires OnlyUpgrades(events) == OnlyUpgrades(others)
    ensures IsPremiumActive(Run(None, events), now) <==> IsPremiumActive(Run(None, others), now)
  {
    PremiumIsSinceLastUpgrade(from, events, now);
    PremiumIsSinceLastUpgrade(from, others, now);
    ReadsDoNotCount(None, events);
    ReadsDoNotCount(None, others);
  }

  /** The dispatch query agrees with the service at every instant except the very one at which the trial ends. */
  lemma QueryAgreesExceptAtTheEnd(from: int, events: seq<Event>, now: int)
    requires InOrder(from, events, now)
    ensures (SqlPremium(Run(None, events), now) <==> IsPremiumActive(Run(None, events), now))
            <==> !(LastUpgrade(None, events).Some? && now - LastUpgrade(None, events).value == 14 * 24 * 60 * 60 * 1_000)
  {
    RowFollowsUpgrades(None, None, from, events, now);
  }

  // ---- The service ----------------------------------------------------------------

  datatype Dto = Dto(plan: Plan, status: SubscriptionStatus, trialEndsAt: Option<int>, isPremiumActive: bool)

  function ToDto(row: Row): Dto {
    Dto(row.plan, row.status, row.trialEndsAt, CountsAsPremium(row))
  }

  /** One master's subscription row; `upgraded` is the last upgrade that was granted. */
  class SubscriptionsService {
    var row: Option<Row>
    ghost var upgraded: Option<int>
    ghost var clock: int

    ghost predicate Valid()
      reads this
    {
      RowOf(row, upgraded, clock)
    }

    constructor (ghost now: int)
      ensures Valid() && row == None && upgraded == None && clock == now
    {
      row, upgraded, clock := None, None, now;
    }

    method GetStatus(now: int) returns (dto: Dto)
      requires Valid() && clock <= now
      modifies this
      ensures Valid() && clock == now && upgraded == old(upgraded)
      ensures dto.isPremiumActive <==> PremiumSince(upgraded, now)
      ensures row.None? <==> upgraded.None?
      ensures dto.trialEndsAt == if upgraded.Some? then Some(upgraded.value + 14 * 24 * 60 * 60 * 1_000) else None
      ensures dto.plan == if upgraded.Some? then Premium else Free
      ensures dto.status == if upgraded.None? then Active else if PremiumSince(upgraded, now) then Trial else Expired
    {
      clock := now;
      if row.None? { return Dto(Free, Active, None, false); }
      if row.value.status == Trial && row.value.trialEndsAt.Some? && row.value.trialEndsAt.value < now {
        row := Some(row.value.(status := Expired));
      }
      return ToDto(row.value);
    }

    /** Refused while a trial runs; otherwise a new one starts. */
    method UpgradeToPremium(now: int) returns (dto: Option<Dto>)
      requires Valid() && clock <= now
      modifies this
      ensures Valid() && clock == now
      ensures dto.None? <==> PremiumSince(old(upgraded), now)
      ensures upgraded == if dto.None? then old(upgraded) else Some(now)
      ensures dto.Some? ==> dto.value == Dto(Premium, Trial, Some(now + 14 * 24 * 60 * 60 * 1_000), true)
    {
      var existing := GetStatus(now);
      if existing.isPremiumActive { return None; }
      row := Some(Row(Premium, Trial, Some(now + TRIAL_MS)));
      upgraded := Some(now);
      return Some(ToDto(row.value));
    }
  }
}
