/** The order status graph and the walks through it. */
module OrderState {
  import opened Prelude

  datatype Status =
    | Draft | Priced | Searching | Assigned | EnRoute | InProgress | Completed | Closed
    | CancelledByCustomer | CancelledByMaster | Expired | Disputed

  /** The transition table: the statuses an order may move to next. */
  function Targets(s: Status): set<Status> {
    match s
    case Draft => {Priced, CancelledByCustomer}
    case Priced => {Priced, Draft, Searching, CancelledByCustomer}
    case Searching => {Assigned, Expired, CancelledByCustomer}
    case Assigned => {EnRoute, CancelledByCustomer, CancelledByMaster}
    case EnRoute => {InProgress, CancelledByCustomer, CancelledByMaster}
    case InProgress => {Completed}
    case Completed => {Closed}
    case _ => {}
  }

  predicate CanTransition(from: Status, to: Status) {
    to in Targets(from)
  }

  /** The seventeen edges. */
  lemma EdgesOfTheGraph(from: Status, to: Status)
    ensures CanTransition(from, to)
            <==> (from, to) in {
                   (Draft, Priced), (Draft, CancelledByCustomer),
                   (Priced, Priced), (Priced, Draft), (Priced, Searching), (Priced, CancelledByCustomer),
                   (Searching, Assigned), (Searching, Expired), (Searching, CancelledByCustomer),
                   (Assigned, EnRoute), (Assigned, CancelledByCustomer), (Assigned, CancelledByMaster),
                   (EnRoute, InProgress), (EnRoute, CancelledByCustomer), (EnRoute, CancelledByMaster),
                   (InProgress, Completed), (Completed, Closed)}
  {
  }

  /** Not submitted yet: the request is still the customer's to change. */
  predicate Editable(s: Status) {
    s == Draft || s == Priced
  }

  /** How far past submission a status lies; final statuses sit at the top. */
  function Stage(s: Status): nat {
    match s
    case Searching => 0
    case Assigned => 1
    case EnRoute => 2
    case InProgress => 3
    case Completed => 4
    case _ => 5
  }

  datatype HistoryRow = HistoryRow(from: Option<Status>, to: Status)

  /** A status history is a walk: it starts at Draft and every row continues the one before along an edge. */
  predicate Walk(h: seq<HistoryRow>) {
    && |h| > 0
    && h[0] == HistoryRow(None, Draft)
    && forall i :: 0 < i < |h| ==> h[i].from == Some(h[i - 1].to) && CanTransition(h[i - 1].to, h[i].to)
  }

  function Last(h: seq<HistoryRow>): Status
    requires |h| > 0
  {
    h[|h| - 1].to
  }

  lemma WalkExtends(h: seq<HistoryRow>, to: Status)
    requires Walk(h) && CanTransition(Last(h), to)
    ensures Walk(h + [HistoryRow(Some(Last(h)), to)])
  {
  }

  /** Past editing the stage climbs by at least one per row, so editing never resumes. */
  lemma {:induction false} StageClimbs(h: seq<HistoryRow>, i: nat, j: nat)
    requires Walk(h) && i <= j < |h| && !Editable(h[i].to)
    ensures !Editable(h[j].to)
    ensures Stage(h[i].to) + (j - i) <= Stage(h[j].to)
    decreases j - i
  {
    if i < j {
      assert CanTransition(h[j - 1].to, h[j].to);
      StageClimbs(h, i, j - 1);
    }
  }

  /** Once submitted, an order has at most five more history rows and is never submitted again. */
  lemma SubmittedWalkIsShort(h: seq<HistoryRow>, i: nat)
    requires Walk(h) && i < |h| && h[i].to == Searching
    ensures |h| <= i + 6
    ensures forall j :: 0 <= j < |h| && h[j].to == Searching ==> j == i
  {
    StageClimbs(h, i, |h| - 1);
    forall j | 0 <= j < |h| && h[j].to == Searching
      ensures j == i
    {
      if i < j { StageClimbs(h, i, j); }
      if j < i { StageClimbs(h, j, i); }
    }
  }
}
