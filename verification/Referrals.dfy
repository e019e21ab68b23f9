/**
 * Referrals and their cashback. Registering a user and recording who referred it is one step; a reward runs in
 * three - read the referral, mark it rewarded, create the cashback - with anything in between.
 */
module Referrals {
  import opened Prelude

  const REWARD: nat := 20_000

  datatype ReferralStatus = Pending | Active | Rewarded

  datatype Referral = Referral(referrer: UserId, referee: UserId, status: ReferralStatus)

  datatype Cashback = Cashback(user: UserId, amount: nat, referral: nat)

  /** Where a reward call stands. `Died` keeps, for the proofs, the referral it still owed a cashback for. */
  datatype Call =
    | ReadReferral(referee: UserId)
    | MarkRewarded(referral: nat)
    | CreateCashback(referral: nat)
    | Returned
    | Died(owing: Option<nat>)

  /** Users are numbered in order of creation. */
  datatype Book = Book(users: nat, referrals: seq<Referral>, cashback: seq<Cashback>, calls: seq<Call>)

  const EMPTY: Book := Book(0, [], [], [])

  datatype Event =
    | Register(code: Option<UserId>)
    | Activate(referee: UserId)
    | Pay(referee: UserId)
    | Advance(call: nat)
    | Crash(call: nat)

  function IndexOf(rs: seq<Referral>, referee: UserId, i: nat): Option<nat>
    requires i <= |rs|
    decreases |rs| - i
  {
    if i == |rs| then None
    else if rs[i].referee == referee then Some(i)
    else IndexOf(rs, referee, i + 1)
  }

  /** A new user, and the referral its code calls for: none for an unknown code or its own. */
  function SignUp(b: Book, code: Option<UserId>): Book {
    var referee := b.users;
    if code.None? || code.value > b.users || code.value == referee then b.(users := b.users + 1)
    else b.(users := b.users + 1, referrals := b.referrals + [Referral(code.value, referee, Pending)])
  }

  /** The guarded write PENDING -> ACTIVE. */
  function ActivateReferral(b: Book, referee: UserId): Book {
    match IndexOf(b.referrals, referee, 0)
    case None => b
    case Some(i) =>
      if i >= |b.referrals| || b.referrals[i].status != Pending then b
      else b.(referrals := b.referrals[i := b.referrals[i].(status := Active)])
  }

  /** The next statement of a reward call. */
  function AdvanceCall(b: Book, k: nat): Book
    requires k < |b.calls|
  {
    match b.calls[k]
    case ReadReferral(referee) =>
      (match IndexOf(b.referrals, referee, 0)
       case None => b.(calls := b.calls[k := Returned])
       case Some(i) =>
         if i >= |b.referrals| || b.referrals[i].status != Active then b.(calls := b.calls[k := Returned])
         else b.(calls := b.calls[k := MarkRewarded(i)]))
    case MarkRewarded(i) =>
      if i >= |b.referrals| || b.referrals[i].status != Active then b.(calls := b.calls[k := Returned])
      else b.(calls := b.calls[k := CreateCashback(i)], referrals := b.referrals[i := b.referrals[i].(status := Rewarded)])
    case CreateCashback(i) =>
      if i >= |b.referrals| then b
      else b.(calls := b.calls[k := Returned], cashback := b.cashback + [Cashback(b.referrals[i].referrer, REWARD, i)])
    case _ => b
  }

  function CrashCall(b: Book, k: nat): Book
    requires k < |b.calls|
  {
    match b.calls[k]
    case CreateCashback(i) => b.(calls := b.calls[k := Died(Some(i))])
    case Returned => b
    case Died(_) => b
    case _ => b.(calls := b.calls[k := Died(None)])
  }

  function Step(b: Book, e: Event): Book {
    match e
    case Register(code) => SignUp(b, code)
    case Activate(referee) => ActivateReferral(b, referee)
    case Pay(referee) => b.(calls := b.calls + [ReadReferral(referee)])
    case Advance(k) => if k < |b.calls| then AdvanceCall(b, k) else b
    case Crash(k) => if k < |b.calls| then CrashCall(b, k) else b
  }

  function Run(b: Book, events: seq<Event>): Book
    decreases |events|
  {
    if events == [] then b else Run(Step(b, events[0]), events[1..])
  }

  // ---- What every step keeps ------------------------------------------------------

  predicate Owes(c: Call, i: nat) {
    c == CreateCashback(i) || c == Died(Some(i))
  }

  predicate Refers(c: Call, n: nat) {
    match c
    case MarkRewarded(i) => i < n
    case CreateCashback(i) => i < n
    case Died(o) => o.Some? ==> o.value < n
    case _ => true
  }

  /** Everything points to what exists, referrers came first, and nobody was referred twice. */
  predicate WellFormed(b: Book) {
    && (forall i :: 0 <= i < |b.referrals| ==> b.referrals[i].referrer < b.referrals[i].referee < b.users)
    && (forall i, j :: 0 <= i < j < |b.referrals| ==> b.referrals[i].referee != b.referrals[j].referee)
    && (forall k :: 0 <= k < |b.calls| ==> Refers(b.calls[k], |b.referrals|))
    && (forall k :: 0 <= k < |b.cashback| ==>
          && b.cashback[k].referral < |b.referrals|
          && b.cashback[k] == Cashback(b.referrals[b.cashback[k].referral].referrer, REWARD, b.cashback[k].referral))
  }

  /** How many cashbacks there are for referral i, and how many calls still owe one or died owing one. */
  function PaidFor(cs: seq<Cashback>, i: nat): nat {
    if cs == [] then 0 else PaidFor(cs[..|cs| - 1], i) + if cs[|cs| - 1].referral == i then 1 else 0
  }

  function OwedFor(calls: seq<Call>, i: nat): nat {
    if calls == [] then 0 else OwedFor(calls[..|calls| - 1], i) + if Owes(calls[|calls| - 1], i) then 1 else 0
  }

  function IsRewarded(rs: seq<Referral>, i: nat): nat {
    if i < |rs| && rs[i].status == Rewarded then 1 else 0
  }

  /** A rewarded referral has one cashback, or one call that owes it; any other has neither. */
  ghost predicate OneReward(b: Book) {
    forall i: nat :: PaidFor(b.cashback, i) + OwedFor(b.calls, i) == IsRewarded(b.referrals, i)
  }

  ghost predicate Inv(b: Book) {
    WellFormed(b) && OneReward(b)
  }

  lemma {:induction false} IndexOfFinds(rs: seq<Referral>, referee: UserId, i: nat)
    requires i <= |rs|
    ensures match IndexOf(rs, referee, i)
            case None => forall k :: i <= k < |rs| ==> rs[k].referee != referee
            case Some(k) => i <= k < |rs| && rs[k].referee == referee
    decreases |rs| - i
  {
    if i < |rs| { IndexOfFinds(rs, referee, i + 1); }
  }

  lemma {:induction false} OwedForUpdate(calls: seq<Call>, k: nat, c: Call, i: nat)
    requires k < |calls|
    ensures OwedFor(calls[k := c], i) + (if Owes(calls[k], i) then 1 else 0) == OwedFor(calls, i) + if Owes(c, i) then 1 else 0
  {
    var n := |calls| - 1;
    if k < n {
      assert calls[k := c][..n] == calls[..n][k := c];
      OwedForUpdate(calls[..n], k, c, i);
    } else {
      assert calls[k := c][..n] == calls[..n];
    }
  }

  lemma MoveCall(b: Book, k: nat, c: Call)
    requires OneReward(b) && k < |b.calls|
    ensures forall i: nat :: PaidFor(b.cashback, i) + OwedFor(b.calls[k := c], i) + (if Owes(b.calls[k], i) then 1 else 0)
                             == IsRewarded(b.referrals, i) + if Owes(c, i) then 1 else 0
  {
    forall i: nat
      ensures PaidFor(b.cashback, i) + OwedFor(b.calls[k := c], i) + (if Owes(b.calls[k], i) then 1 else 0)
              == IsRewarded(b.referrals, i) + if Owes(c, i) then 1 else 0
    {
      OwedForUpdate(b.calls, k, c, i);
    }
  }

  lemma SignUpKeepsInv(b: Book, code: Option<UserId>)
    requires Inv(b)
    ensures Inv(SignUp(b, code))
  {
  }

  lemma ActivationKeepsInv(b: Book, referee: UserId)
    requires Inv(b)
    ensures Inv(ActivateReferral(b, referee))
  {
    forall i: nat ensures IsRewarded(ActivateReferral(b, referee).referrals, i) == IsRewarded(b.referrals, i) {
    }
  }

  lemma PaymentKeepsInv(b: Book, referee: UserId)
    requires Inv(b)
    ensures Inv(Step(b, Pay(referee)))
  {
    var calls := b.calls + [ReadReferral(referee)];
    assert calls[..|b.calls|] == b.calls;
  }

  lemma PaidForAppend(cs: seq<Cashback>, c: Cashback, i: nat)
    ensures PaidFor(cs + [c], i) == PaidFor(cs, i) + if c.referral == i then 1 else 0
  {
    assert (cs + [c])[..|cs|] == cs;
  }

  lemma CreateKeepsReward(b: Book, k: nat, i: nat)
    requires Inv(b) && k < |b.calls| && b.calls[k] == CreateCashback(i)
    ensures OneReward(AdvanceCall(b, k))
  {
    assert Refers(b.calls[k], |b.referrals|);
    var row := Cashback(b.referrals[i].referrer, REWARD, i);
    MoveCall(b, k, Returned);
    forall j: nat
      ensures PaidFor(b.cashback + [row], j) + OwedFor(b.calls[k := Returned], j) == IsRewarded(b.referrals, j)
    {
      PaidForAppend(b.cashback, row, j);
    }
  }

  lemma MarkKeepsReward(b: Book, k: nat, i: nat)
    requires Inv(b) && k < |b.calls| && b.calls[k] == MarkRewarded(i) && i < |b.referrals| && b.referrals[i].status == Active
    ensures OneReward(AdvanceCall(b, k))
  {
    MoveCall(b, k, CreateCashback(i));
    var rs := b.referrals[i := b.referrals[i].(status := Rewarded)];
    forall j: nat
      ensures PaidFor(b.cashback, j) + OwedFor(b.calls[k := CreateCashback(i)], j) == IsRewarded(rs, j)
    {
      assert IsRewarded(rs, j) == IsRewarded(b.referrals, j) + if j == i then 1 else 0;
    }
  }

  lemma AdvanceKeepsReward(b: Book, k: nat)
    requires Inv(b) && k < |b.calls|
    ensures OneReward(AdvanceCall(b, k))
  {
    var call := b.calls[k];
    assert Refers(call, |b.referrals|);
    if call.CreateCashback? {
      CreateKeepsReward(b, k, call.referral);
    } else if call.MarkRewarded? && b.referrals[call.referral].status == Active {
      MarkKeepsReward(b, k, call.referral);
    } else {
      MoveCall(b, k, AdvanceCall(b, k).calls[k]);
    }
  }

  lemma AdvanceKeepsForm(b: Book, k: nat)
    requires WellFormed(b) && k < |b.calls|
    ensures WellFormed(AdvanceCall(b, k))
  {
    if b.calls[k].ReadReferral? { IndexOfFinds(b.referrals, b.calls[k].referee, 0); }
  }

  lemma CrashKeepsInv(b: Book, k: nat)
    requires Inv(b) && k < |b.calls|
    ensures Inv(CrashCall(b, k))
  {
    MoveCall(b, k, CrashCall(b, k).calls[k]);
  }

  lemma StepKeepsInv(b: Book, e: Event)
    requires Inv(b)
    ensures Inv(Step(b, e))
  {
    match e
    case Register(code) => SignUpKeepsInv(b, code);
    case Activate(referee) => ActivationKeepsInv(b, referee);
    case Pay(referee) => PaymentKeepsInv(b, referee);
    case Advance(k) => if k < |b.calls| { AdvanceKeepsForm(b, k); AdvanceKeepsReward(b, k); }
    case Crash(k) => if k < |b.calls| { CrashKeepsInv(b, k); }
  }

  lemma {:induction false} RunKeepsInv(b: Book, events: seq<Event>)
    requires Inv(b)
    ensures Inv(Run(b, events))
    decreases |events|
  {
    if events != [] {
      StepKeepsInv(b, events[0]);
      RunKeepsInv(Step(b, events[0]), events[1..]);
    }
  }

  lemma {:induction false} RunAppends(b: Book, events: seq<Event>, e: Event)
    ensures Run(b, events + [e]) == Step(Run(b, events), e)
    decreases |events|
  {
    if events == [] {
      assert Run(Step(b, e), []) == Step(b, e);
    } else {
      assert (events + [e])[1..] == events[1..] + [e];
      RunAppends(Step(b, events[0]), events[1..], e);
    }
  }

  ghost predicate Reachable(b: Book) {
    exists events :: b == Run(EMPTY, events)
  }

  lemma ReachableIsSound(b: Book)
    requires Reachable(b)
    ensures Inv(b)
  {
    var events :| b == Run(EMPTY, events);
    RunKeepsInv(EMPTY, events);
  }

  // ---- Theorems -------------------------------------------------------------------

  /** Under any interleaving of payments: at most one cashback per referral, and only for a rewarded one. */
  lemma RewardedOnce(b: Book, i: nat)
    requires Reachable(b)
    ensures PaidFor(b.cashback, i) <= 1
    ensures PaidFor(b.cashback, i) == 1 ==> i < |b.referrals| && b.referrals[i].status == Rewarded
  {
    ReachableIsSound(b);
    assert PaidFor(b.cashback, i) + OwedFor(b.calls, i) == IsRewarded(b.referrals, i);
  }

  function CashbackOf(cs: seq<Cashback>, user: UserId): nat {
    if cs == [] then 0 else CashbackOf(cs[..|cs| - 1], user) + if cs[|cs| - 1].user == user then cs[|cs| - 1].amount else 0
  }

  function RewardedBy(rs: seq<Referral>, user: UserId): nat {
    if rs == [] then 0
    else RewardedBy(rs[..|rs| - 1], user) + if rs[|rs| - 1].referrer == user && rs[|rs| - 1].status == Rewarded then 1 else 0
  }

  /** Cashbacks still to be created, or never to be because the process died first, for referrals by the user. */
  function StillOwed(calls: seq<Call>, rs: seq<Referral>, user: UserId): nat {
    if calls == [] then 0
    else StillOwed(calls[..|calls| - 1], rs, user) + if OwesTo(calls[|calls| - 1], rs, user) then 1 else 0
  }

  predicate OwesTo(c: Call, rs: seq<Referral>, user: UserId) {
    exists i :: 0 <= i < |rs| && Owes(c, i) && rs[i].referrer == user
  }

  predicate Ledger(b: Book, user: UserId) {
    CashbackOf(b.cashback, user) + 20_000 * StillOwed(b.calls, b.referrals, user) == 20_000 * RewardedBy(b.referrals, user)
  }

  lemma {:induction false} RewardedUpdate(rs: seq<Referral>, i: nat, s: ReferralStatus, user: UserId)
    requires i < |rs| && rs[i].status != Rewarded
    ensures RewardedBy(rs[i := rs[i].(status := s)], user)
            == RewardedBy(rs, user) + if s == Rewarded && rs[i].referrer == user then 1 else 0
  {
    var n, r := |rs| - 1, rs[i].(status := s);
    if i < n {
      assert rs[i := r][..n] == rs[..n][i := r];
      RewardedUpdate(rs[..n], i, s, user);
    } else {
      assert rs[i := r][..n] == rs[..n];
    }
  }

  /** The debts of a call do not depend on statuses, nor on later referrals. */
  predicate SameReferrers(rs: seq<Referral>, rs': seq<Referral>) {
    |rs| <= |rs'| && forall i :: 0 <= i < |rs| ==> rs[i].referrer == rs'[i].referrer && rs[i].referee == rs'[i].referee
  }

  lemma {:induction false} SameDebts(calls: seq<Call>, rs: seq<Referral>, rs': seq<Referral>, user: UserId)
    requires SameReferrers(rs, rs') && forall k :: 0 <= k < |calls| ==> Refers(calls[k], |rs|)
    ensures StillOwed(calls, rs', user) == StillOwed(calls, rs, user)
  {
    if calls != [] {
      var c := calls[|calls| - 1];
      SameDebts(calls[..|calls| - 1], rs, rs', user);
      assert Refers(c, |rs|);
      if OwesTo(c, rs', user) {
        var i :| 0 <= i < |rs'| && Owes(c, i) && rs'[i].referrer == user;
        assert i < |rs| && Owes(c, i) && rs[i].referrer == user;
      }
      if OwesTo(c, rs, user) {
        var i :| 0 <= i < |rs| && Owes(c, i) && rs[i].referrer == user;
        assert i < |rs'| && Owes(c, i) && rs'[i].referrer == user;
      }
    }
  }

  lemma {:induction false} DebtMoves(calls: seq<Call>, k: nat, c: Call, rs: seq<Referral>, user: UserId)
    requires k < |calls|
    ensures StillOwed(calls[k := c], rs, user) + (if OwesTo(calls[k], rs, user) then 1 else 0)
            == StillOwed(calls, rs, user) + if OwesTo(c, rs, user) then 1 else 0
  {
    var n := |calls| - 1;
    if k < n {
      assert calls[k := c][..n] == calls[..n][k := c];
      DebtMoves(calls[..n], k, c, rs, user);
    } else {
      assert calls[k := c][..n] == calls[..n];
    }
  }

  lemma OwesExactly(c: Call, i: nat, rs: seq<Referral>, user: UserId)
    requires Owes(c, i) && i < |rs|
    ensures OwesTo(c, rs, user) <==> rs[i].referrer == user
  {
    if rs[i].referrer == user { assert Owes(c, i); }
  }

  lemma MarkKeepsLedger(b: Book, k: nat, i: nat, user: UserId)
    requires WellFormed(b) && Ledger(b, user) && k < |b.calls| && b.calls[k] == MarkRewarded(i)
    requires b.referrals[i].status == Active
    ensures Ledger(AdvanceCall(b, k), user)
  {
    var c := AdvanceCall(b, k);
    DebtMoves(b.calls, k, c.calls[k], b.referrals, user);
    OwesExactly(CreateCashback(i), i, b.referrals, user);
    RewardedUpdate(b.referrals, i, Rewarded, user);
    assert forall j :: 0 <= j < |c.calls| ==> Refers(c.calls[j], |b.referrals|);
    SameDebts(c.calls, b.referrals, c.referrals, user);
  }

  lemma CashbackAppend(cs: seq<Cashback>, c: Cashback, user: UserId)
    ensures CashbackOf(cs + [c], user) == CashbackOf(cs, user) + if c.user == user then c.amount else 0
  {
    assert (cs + [c])[..|cs|] == cs;
  }

  lemma CreateKeepsLedger(b: Book, k: nat, i: nat, user: UserId)
    requires WellFormed(b) && Ledger(b, user) && k < |b.calls| && b.calls[k] == CreateCashback(i)
    ensures Ledger(AdvanceCall(b, k), user)
  {
    assert Refers(b.calls[k], |b.referrals|);
    DebtMoves(b.calls, k, Returned, b.referrals, user);
    OwesExactly(b.calls[k], i, b.referrals, user);
    assert !OwesTo(Returned, b.referrals, user);
    CashbackAppend(b.cashback, Cashback(b.referrals[i].referrer, REWARD, i), user);
  }

  lemma AdvanceKeepsLedger(b: Book, k: nat, user: UserId)
    requires WellFormed(b) && Ledger(b, user) && k < |b.calls|
    ensures Ledger(AdvanceCall(b, k), user)
  {
    var call := b.calls[k];
    if call.CreateCashback? {
      CreateKeepsLedger(b, k, call.referral, user);
    } else if call.MarkRewarded? && b.referrals[call.referral].status == Active {
      MarkKeepsLedger(b, k, call.referral, user);
    } else {
      DebtMoves(b.calls, k, AdvanceCall(b, k).calls[k], b.referrals, user);
    }
  }

  lemma CrashKeepsLedger(b: Book, k: nat, user: UserId)
    requires WellFormed(b) && Ledger(b, user) && k < |b.calls|
    ensures Ledger(CrashCall(b, k), user)
  {
    var c := CrashCall(b, k);
    DebtMoves(b.calls, k, c.calls[k], b.referrals, user);
    if b.calls[k].CreateCashback? {
      OwesExactly(b.calls[k], b.calls[k].referral, b.referrals, user);
      OwesExactly(c.calls[k], b.calls[k].referral, b.referrals, user);
    }
  }

  lemma RewardedAppend(rs: seq<Referral>, r: Referral, user: UserId)
    requires r.status == Pending
    ensures RewardedBy(rs + [r], user) == RewardedBy(rs, user)
  {
    assert (rs + [r])[..|rs|] == rs;
  }

  lemma SignUpKeepsLedger(b: Book, code: Option<UserId>, user: UserId)
    requires WellFormed(b) && Ledger(b, user)
    ensures Ledger(SignUp(b, code), user)
  {
    if code.Some? && code.value < b.users {
      var r := Referral(code.value, b.users, Pending);
      SameDebts(b.calls, b.referrals, b.referrals + [r], user);
      RewardedAppend(b.referrals, r, user);
    }
  }

  lemma ActivationKeepsLedger(b: Book, referee: UserId, user: UserId)
    requires WellFormed(b) && Ledger(b, user)
    ensures Ledger(ActivateReferral(b, referee), user)
  {
    var c := ActivateReferral(b, referee);
    var i := IndexOf(b.referrals, referee, 0);
    if c != b {
      RewardedUpdate(b.referrals, i.value, Active, user);
      SameDebts(b.calls, b.referrals, c.referrals, user);
    }
  }

  lemma PaymentKeepsLedger(b: Book, referee: UserId, user: UserId)
    requires Ledger(b, user)
    ensures Ledger(Step(b, Pay(referee)), user)
  {
    var calls := b.calls + [ReadReferral(referee)];
    assert calls[..|b.calls|] == b.calls;
    assert !OwesTo(ReadReferral(referee), b.referrals, user);
  }

  lemma StepKeepsLedger(b: Book, e: Event, user: UserId)
    requires WellFormed(b) && Ledger(b, user)
    ensures Ledger(Step(b, e), user)
  {
    match e
    case Register(code) => SignUpKeepsLedger(b, code, user);
    case Activate(referee) => ActivationKeepsLedger(b, referee, user);
    case Pay(referee) => PaymentKeepsLedger(b, referee, user);
    case Advance(k) => if k < |b.calls| { AdvanceKeepsLedger(b, k, user); }
    case Crash(k) => if k < |b.calls| { CrashKeepsLedger(b, k, user); }
  }

  /**
   * A referrer's cashback, with what calls in flight (or cut short) still owe, is 20 000 times its rewarded
   * referrals - after every run.
   */
  lemma {:induction false} LedgerAddsUp(b: Book, events: seq<Event>, user: UserId)
    requires Inv(b) && Ledger(b, user)
    ensures Ledger(Run(b, events), user)
    decreases |events|
  {
    if events != [] {
      StepKeepsLedger(b, events[0], user);
      StepKeepsInv(b, events[0]);
      LedgerAddsUp(Step(b, events[0]), events[1..], user);
    }
  }

  lemma EmptyLedger(user: UserId)
    ensures Inv(EMPTY) && Ledger(EMPTY, user)
  {
  }

  function Rank(s: ReferralStatus): nat {
    match s case Pending => 0 case Active => 1 case Rewarded => 2
  }

  predicate Advances(b: Book, c: Book) {
    && SameReferrers(b.referrals, c.referrals) && b.cashback <= c.cashback
    && forall i :: 0 <= i < |b.referrals| ==>
         Rank(b.referrals[i].status) <= Rank(c.referrals[i].status)
  }

  lemma StepAdvances(b: Book, e: Event)
    ensures Advances(b, Step(b, e))
    ensures forall i :: 0 <= i < |b.referrals| ==> Rank(Step(b, e).referrals[i].status) <= Rank(b.referrals[i].status) + 1
  {
  }

  /** A referral only ever moves from pending to active to rewarded, and cashback is never taken back. */
  lemma {:induction false} StatusOnlyClimbs(b: Book, events: seq<Event>)
    ensures Advances(b, Run(b, events))
    decreases |events|
  {
    if events != [] {
      StepAdvances(b, events[0]);
      StatusOnlyClimbs(Step(b, events[0]), events[1..]);
    }
  }

  // ---- Who referred whom ----------------------------------------------------------

  /** A chain of referrals from a user to the one who brought in the one who brought in ... it. */
  predicate Chain(rs: seq<Referral>, path: seq<nat>) {
    && (forall p :: 0 <= p < |path| ==> path[p] < |rs|)
    && forall p :: 0 < p < |path| ==> rs[path[p]].referee == rs[path[p - 1]].referrer
  }

  lemma {:induction false} ChainDescends(b: Book, path: seq<nat>)
    requires WellFormed(b) && path != [] && Chain(b.referrals, path)
    ensures b.referrals[path[|path| - 1]].referrer + |path| <= b.referrals[path[0]].referee
  {
    if |path| > 1 {
      ChainDescends(b, path[..|path| - 1]);
    }
  }

  /** Referrals form a forest: no chain of them leads back to where it started, and every one is short. */
  lemma ReferralsAreAForest(b: Book, path: seq<nat>)
    requires Reachable(b) && path != [] && Chain(b.referrals, path)
    ensures b.referrals[path[|path| - 1]].referrer != b.referrals[path[0]].referee
    ensures |path| < b.users
  {
    ReachableIsSound(b);
    ChainDescends(b, path);
  }

  // ---- A reward is made -----------------------------------------------------------

  /** The payer's referral, waiting for its first payment. */
  predicate IsActiveAt(b: Book, i: nat, referee: UserId) {
    i < |b.referrals| && b.referrals[i].referee == referee && b.referrals[i].status == Active
  }

  predicate HasActive(b: Book, referee: UserId) {
    exists i: nat :: i < |b.referrals| && IsActiveAt(b, i, referee)
  }

  lemma ReadFindsActive(b: Book, referee: UserId)
    requires WellFormed(b)
    ensures var found := IndexOf(b.referrals, referee, 0);
            if found.Some? && IsActiveAt(b, found.value, referee) then HasActive(b, referee)
            else !HasActive(b, referee) && (found.Some? ==> found.value < |b.referrals| && b.referrals[found.value].status != Active)
  {
    IndexOfFinds(b.referrals, referee, 0);
  }

  /** Later on, the referral found active is the only one of its referee that can be. */
  lemma StaysTheActive(read: Book, marked: Book, i: nat, referee: UserId)
    requires WellFormed(marked) && Advances(read, marked) && IsActiveAt(read, i, referee)
    ensures HasActive(marked, referee) <==> marked.referrals[i].status == Active
  {
    if marked.referrals[i].status == Active { assert IsActiveAt(marked, i, referee); }
  }

  /** The three statements of a reward call that nothing comes between. */
  function Uninterrupted(b: Book, referee: UserId): Book {
    var k := |b.calls|;
    Step(Step(Step(Step(b, Pay(referee)), Advance(k)), Advance(k)), Advance(k))
  }

  lemma Then(b: Book, e: Event, rest: seq<Event>)
    ensures Run(b, [e] + rest) == Run(Step(b, e), rest)
  {
    assert ([e] + rest)[1..] == rest;
  }

  /** The events of a payment whose call nothing interrupts. */
  function Payment(referee: UserId, k: nat): seq<Event> {
    [Pay(referee)] + ([Advance(k)] + ([Advance(k)] + ([Advance(k)] + [])))
  }

  lemma UninterruptedIsRun(b: Book, referee: UserId)
    ensures Run(b, Payment(referee, |b.calls|)) == Uninterrupted(b, referee)
  {
    var k := |b.calls|;
    var b1 := Step(b, Pay(referee));
    var b2 := Step(b1, Advance(k));
    var b3 := Step(b2, Advance(k));
    Then(b, Pay(referee), [Advance(k)] + ([Advance(k)] + ([Advance(k)] + [])));
    Then(b1, Advance(k), [Advance(k)] + ([Advance(k)] + []));
    Then(b2, Advance(k), [Advance(k)] + []);
    Then(b3, Advance(k), []);
  }

  lemma ActiveIsRewarded(b: Book, referee: UserId, i: nat)
    requires WellFormed(b) && IsActiveAt(b, i, referee)
    ensures var c := Uninterrupted(b, referee);
            && c.referrals == b.referrals[i := b.referrals[i].(status := Rewarded)]
            && c.cashback == b.cashback + [Cashback(b.referrals[i].referrer, 20_000, i)]
  {
    var k := |b.calls|;
    var paid := Step(b, Pay(referee));
    IndexOfFinds(b.referrals, referee, 0);
    assert IndexOf(b.referrals, referee, 0) == Some(i);
    var read := Step(paid, Advance(k));
    assert read.calls[k] == MarkRewarded(i);
    var marked := Step(read, Advance(k));
    assert marked.calls[k] == CreateCashback(i) && marked.referrals == b.referrals[i := b.referrals[i].(status := Rewarded)];
  }

  lemma OthersAreNotRewarded(b: Book, referee: UserId)
    requires WellFormed(b) && !HasActive(b, referee)
    ensures Uninterrupted(b, referee).referrals == b.referrals && Uninterrupted(b, referee).cashback == b.cashback
  {
    ReadFindsActive(b, referee);
    assert Step(Step(b, Pay(referee)), Advance(|b.calls|)).calls[|b.calls|] == Returned;
  }

  /**
   * A first payment rewards: in every reachable book, a payment whose call nothing interrupts leaves the payer's active
   * referral rewarded, with one more cashback of 20 000 for its referrer; without one it changes neither.
   */
  lemma FirstPaymentRewards(b: Book, referee: UserId)
    requires Reachable(b)
    ensures var c := Run(b, Payment(referee, |b.calls|));
            && (forall i: nat :: i < |b.referrals| && IsActiveAt(b, i, referee) ==>
                  && c.referrals == b.referrals[i := b.referrals[i].(status := Rewarded)]
                  && c.cashback == b.cashback + [Cashback(b.referrals[i].referrer, 20_000, i)])
            && (!HasActive(b, referee) ==> c.referrals == b.referrals && c.cashback == b.cashback)
  {
    ReachableIsSound(b);
    UninterruptedIsRun(b, referee);
    forall i: nat | i < |b.referrals| && IsActiveAt(b, i, referee)
      ensures var c := Uninterrupted(b, referee);
              && c.referrals == b.referrals[i := b.referrals[i].(status := Rewarded)]
              && c.cashback == b.cashback + [Cashback(b.referrals[i].referrer, 20_000, i)]
    {
      ActiveIsRewarded(b, referee, i);
    }
    if !HasActive(b, referee) { OthersAreNotRewarded(b, referee); }
  }

  // ---- The service ----------------------------------------------------------------

  /** Not a statement, nor the end, of the reward call `me`. */
  predicate NotOf(e: Event, me: nat) {
    e != Advance(me) && e != Crash(me)
  }

  /** The last cashback is the referrer's, for the referral of this referee, and its only one. */
  predicate JustRewarded(before: seq<Cashback>, b: Book, referrer: UserId, referee: UserId) {
    && b.cashback != []
    && var last := b.cashback[|b.cashback| - 1];
       && last.user == referrer && last.amount == 20_000
       && last.referral < |b.referrals| && b.referrals[last.referral] == Referral(referrer, referee, Rewarded)
       && PaidFor(b.cashback, last.referral) == 1 && PaidFor(before, last.referral) == 0
  }

  lemma {:induction false} PaidForGrows(cs: seq<Cashback>, cs': seq<Cashback>, i: nat)
    requires cs <= cs'
    ensures PaidFor(cs, i) <= PaidFor(cs', i)
  {
    if |cs| < |cs'| {
      assert cs <= cs'[..|cs'| - 1];
      PaidForGrows(cs, cs'[..|cs'| - 1], i);
    } else {
      assert cs == cs';
    }
  }

  lemma CreateRewards(before: seq<Cashback>, b: Book, k: nat, i: nat)
    requires Inv(b) && before <= b.cashback && k < |b.calls| && b.calls[k] == CreateCashback(i)
    ensures i < |b.referrals| && JustRewarded(before, AdvanceCall(b, k), b.referrals[i].referrer, b.referrals[i].referee)
  {
    var c := AdvanceCall(b, k);
    assert Refers(b.calls[k], |b.referrals|);
    assert c.cashback[..|b.cashback|] == b.cashback;
    CallOwes(b.calls, k, i);
    assert PaidFor(b.cashback, i) + OwedFor(b.calls, i) == IsRewarded(b.referrals, i);
    PaidForGrows(before, b.cashback, i);
  }

  lemma {:induction false} CallOwes(calls: seq<Call>, k: nat, i: nat)
    requires k < |calls| && Owes(calls[k], i)
    ensures OwedFor(calls, i) > 0
  {
    if k < |calls| - 1 { CallOwes(calls[..|calls| - 1], k, i); }
  }

  /** The tables of the service. `script` is what everybody else does whenever a call waits for the database. */
  class ReferralsService {
    var users: nat
    var referrals: seq<Referral>
    var cashback: seq<Cashback>
    var calls: seq<Call>
    var script: seq<seq<Event>>
    ghost var trace: seq<Event>

    function Snapshot(): Book
      reads this
    {
      Book(users, referrals, cashback, calls)
    }

    /** The tables are what the recorded steps make of empty ones. */
    ghost predicate Valid()
      reads this
    {
      Snapshot() == Run(EMPTY, trace)
    }

    /** So every theorem about runs holds of them. */
    lemma Sound(user: UserId)
      requires Valid()
      ensures Inv(Snapshot()) && Ledger(Snapshot(), user)
    {
      EmptyLedger(user);
      RunKeepsInv(EMPTY, trace);
      LedgerAddsUp(EMPTY, trace, user);
    }

    constructor (script: seq<seq<Event>>)
      ensures Valid() && Snapshot() == EMPTY
    {
      users, referrals, cashback, calls := 0, [], [], [];
      this.script, trace := script, [];
    }

    method Write(b: Book, ghost e: Event)
      requires Valid() && b == Step(Snapshot(), e)
      modifies this
      ensures Valid() && Snapshot() == b && script == old(script) && Advances(old(Snapshot()), b)
    {
      StepAdvances(Snapshot(), e);
      RunAppends(EMPTY, trace, e);
      trace := trace + [e];
      users, referrals, cashback, calls := b.users, b.referrals, b.cashback, b.calls;
    }

    /** Waiting for the database; the reward call `me` stays where it is. */
    method Await(me: nat)
      requires Valid() && me < |calls|
      modifies this
      ensures Valid() && Advances(old(Snapshot()), Snapshot())
      ensures me < |calls| && calls[me] == old(calls)[me]
    {
      var events := if script == [] then [] else script[0];
      script := if script == [] then [] else script[1..];
      for k := 0 to |events|
        invariant Valid() && Advances(old(Snapshot()), Snapshot())
        invariant me < |calls| && calls[me] == old(calls)[me]
      {
        if NotOf(events[k], me) { Write(Step(Snapshot(), events[k]), events[k]); }
      }
    }

    /** Creates the user and records who referred it; an unknown code, or its own, is silently ignored. */
    method RecordSignup(code: Option<UserId>) returns (user: UserId)
      requires Valid()
      modifies this
      ensures Valid() && user == old(users) && users == user + 1
      ensures cashback == old(cashback) && calls == old(calls)
      ensures referrals == old(referrals) + if code.Some? && code.value < user then [Referral(code.value, user, Pending)] else []
    {
      user := users;
      var b := Snapshot().(users := users + 1);
      if code.Some? && code.value <= user && code.value != user {
        b := b.(referrals := referrals + [Referral(code.value, user, Pending)]);
      }
      Write(b, Register(code));
    }

    method ActivateOnVerify(referee: UserId)
      requires Valid()
      modifies this
      ensures Valid() && Advances(old(Snapshot()), Snapshot())
      ensures |referrals| == |old(referrals)| && users == old(users) && cashback == old(cashback) && calls == old(calls)
      ensures forall i :: 0 <= i < |referrals| ==>
                referrals[i] == if old(referrals)[i].referee == referee && old(referrals)[i].status == Pending
                                then old(referrals)[i].(status := Active) else old(referrals)[i]
    {
      IndexOfFinds(referrals, referee, 0);
      Sound(0);
      var b := Snapshot();
      var i := IndexOf(referrals, referee, 0);
      if i.Some? && referrals[i.value].status == Pending {
        b := b.(referrals := referrals[i.value := referrals[i.value].(status := Active)]);
      }
      Write(b, Activate(referee));
    }

    /** The read, of the book `read`: the active referral of the payer, if it has one. */
    method FindActive(me: nat, referee: UserId) returns (found: Option<nat>, ghost read: Book)
      requires Valid() && me < |calls| && calls[me] == ReadReferral(referee)
      modifies this
      ensures Valid() && Advances(old(Snapshot()), read) && Snapshot() == read.(calls := calls)
      ensures found.Some? <==> HasActive(read, referee)
      ensures found.Some? ==> me < |calls| && calls[me] == MarkRewarded(found.value) && IsActiveAt(read, found.value, referee)
    {
      Await(me);
      read := Snapshot();
      Sound(0);
      ReadFindsActive(read, referee);
      IndexOfFinds(referrals, referee, 0);
      found := IndexOf(referrals, referee, 0);
      if found.None? || referrals[found.value].status != Active { found := None; }
      Write(Snapshot().(calls := calls[me := if found.Some? then MarkRewarded(found.value) else Returned]), Advance(me));
    }

    /** The write guarded on ACTIVE, on the book `marked`: whether this call won it. */
    method ClaimReward(me: nat, i: nat) returns (won: bool, ghost marked: Book)
      requires Valid() && me < |calls| && calls[me] == MarkRewarded(i) && i < |referrals|
      modifies this
      ensures Valid() && Advances(old(Snapshot()), marked) && i < |marked.referrals| && WellFormed(marked)
      ensures won <==> marked.referrals[i].status == Active
      ensures won ==>
                && me < |calls| && calls[me] == CreateCashback(i)
                && Snapshot() == marked.(calls := calls, referrals := marked.referrals[i := marked.referrals[i].(status := Rewarded)])
      ensures !won ==> Snapshot() == marked.(calls := calls)
    {
      Await(me);
      marked := Snapshot();
      Sound(0);
      won := referrals[i].status == Active;
      if won {
        Write(Snapshot().(calls := calls[me := CreateCashback(i)], referrals := referrals[i := referrals[i].(status := Rewarded)]),
              Advance(me));
      } else {
        Write(Snapshot().(calls := calls[me := Returned]), Advance(me));
      }
    }

    method CreateCashbackRow(me: nat, i: nat) returns (referrer: UserId)
      requires Valid() && me < |calls| && calls[me] == CreateCashback(i) && i < |referrals|
      modifies this
      ensures Valid() && Advances(old(Snapshot()), Snapshot())
      ensures JustRewarded(old(cashback), Snapshot(), referrer, old(referrals)[i].referee)
    {
      Await(me);
      Sound(0);
      CreateRewards(old(cashback), Snapshot(), me, i);
      referrer := referrals[i].referrer;
      Write(Snapshot().(calls := calls[me := Returned], cashback := cashback + [Cashback(referrer, REWARD, i)]), Advance(me));
    }

    /**
     * Rewards whoever referred the payer. However many settlements race, a referrer is returned exactly when the payer's
     * referral is active both in `read` and in `marked`, the books at the read and at the guarded write, and then with the
     * one cashback for it; otherwise the call writes none.
     */
    method RewardOnFirstPayment(referee: UserId) returns (referrer: Option<UserId>, ghost read: Book, ghost marked: Book)
      requires Valid()
      modifies this
      ensures Valid() && Advances(old(Snapshot()), read) && Advances(read, marked) && Advances(marked, Snapshot())
      ensures referrer.Some? <==> HasActive(read, referee) && HasActive(marked, referee)
      ensures referrer.None? ==> Snapshot() == marked.(calls := calls)
      ensures referrer.Some? ==> JustRewarded(marked.cashback, Snapshot(), referrer.value, referee)
    {
      var me := |calls|;
      Write(Snapshot().(calls := calls + [ReadReferral(referee)]), Pay(referee));
      var found: Option<nat>, won: bool;
      found, read := FindActive(me, referee);
      marked := read;
      if found.None? { return None, read, marked; }
      won, marked := ClaimReward(me, found.value);
      StaysTheActive(read, marked, found.value, referee);
      if !won { return None, read, marked; }
      var user := CreateCashbackRow(me, found.value);
      return Some(user), read, marked;
    }
  }
}
