/**
 * One order row, every value it has had, and its status history, with the writes OrdersService makes to them.
 *
 * A call that read the row earlier passes the value it saw; `seen` may be any version the row ever had, so
 * every delay between a call's read and its guarded write is covered. The pre-submission methods (edit,
 * diagnose, submit) write unguarded and are taken as one read-and-write step. A rejected call changes nothing.
 */
module Orders {
  import opened Prelude
  import opened OrderState
  import opened Pricing

  /** What the last quote was computed from. Recorded for the proofs only; the order row has no such column. */
  datatype Basis = Basis(category: CategoryId, base: Band, complexity: Complexity, tier: Tier, description: string)

  datatype OrderRow = OrderRow(
    customer: UserId, status: Status, category: Option<CategoryId>, description: string, tier: Tier,
    scheduledAt: Option<int>, addressText: Option<string>, latitude: Option<real>, longitude: Option<real>,
    complexity: Option<Complexity>, priceMin: Option<int>, priceMax: Option<int>, platformFee: int,
    finalAmount: Option<int>, master: Option<MasterId>, basis: Option<Basis>)

  datatype Book = Book(row: OrderRow, versions: set<OrderRow>, history: seq<HistoryRow>)

  // ---- Writes ---------------------------------------------------------------------

  /** A new value of the row without a history entry. */
  function Rewrite(b: Book, row: OrderRow): Book {
    Book(row, b.versions + {row}, b.history)
  }

  /** A new value of the row together with the history entry `from` -> its status. */
  function Record(b: Book, from: Status, row: OrderRow): Book {
    Book(row, b.versions + {row}, b.history + [HistoryRow(Some(from), row.status)])
  }

  function NewOrder(customer: UserId, category: Option<CategoryId>, description: string): Book {
    var row := OrderRow(customer, Draft, category, description, Scheduled, None, None, None, None,
                        None, None, None, 0, None, None, None);
    Book(row, {row}, [HistoryRow(None, Draft)])
  }

  /** Fields of an edit; None leaves the column alone. scheduledAt may also be set to null. */
  datatype Patch = Patch(
    category: Option<CategoryId>, description: Option<string>, tier: Option<Tier>, scheduledAt: Option<Option<int>>,
    addressText: Option<string>, latitude: Option<real>, longitude: Option<real>)

  function Or<T>(o: Option<T>, old_: T): T {
    if o.Some? then o.value else old_
  }

  function Patched(row: OrderRow, p: Patch): OrderRow {
    row.(category := if p.category.Some? then p.category else row.category,
         description := Or(p.description, row.description),
         tier := Or(p.tier, row.tier),
         scheduledAt := Or(p.scheduledAt, row.scheduledAt),
         addressText := if p.addressText.Some? then p.addressText else row.addressText,
         latitude := if p.latitude.Some? then p.latitude else row.latitude,
         longitude := if p.longitude.Some? then p.longitude else row.longitude)
  }

  /** Column by column: what the patch names is written, what it leaves out is kept. */
  predicate Applied(r: OrderRow, p: Patch, s: OrderRow) {
    && (p.category.Some? ==> s.category == p.category) && (p.category.None? ==> s.category == r.category)
    && (p.description.Some? ==> Some(s.description) == p.description) && (p.description.None? ==> s.description == r.description)
    && (p.tier.Some? ==> Some(s.tier) == p.tier) && (p.tier.None? ==> s.tier == r.tier)
    && (p.scheduledAt.Some? ==> Some(s.scheduledAt) == p.scheduledAt) && (p.scheduledAt.None? ==> s.scheduledAt == r.scheduledAt)
    && (p.addressText.Some? ==> s.addressText == p.addressText) && (p.addressText.None? ==> s.addressText == r.addressText)
    && (p.latitude.Some? ==> s.latitude == p.latitude) && (p.latitude.None? ==> s.latitude == r.latitude)
    && (p.longitude.Some? ==> s.longitude == p.longitude) && (p.longitude.None? ==> s.longitude == r.longitude)
    && s.customer == r.customer && s.complexity == r.complexity && s.master == r.master && s.finalAmount == r.finalAmount
  }

  const DAY_MS: int := 86_400_000
  const MAX_DAYS_AHEAD: int := 14

  /** Minute of the Tashkent day (UTC+5) at a UTC instant in milliseconds. */
  function TashkentMinute(t: int): int {
    ((t + 5 * 3_600_000) / 60_000) % 1_440
  }

  /** 09:00, 11:00, 14:00 and 16:00. */
  predicate BookableMinute(m: int) {
    m == 540 || m == 660 || m == 840 || m == 960
  }

  predicate Schedulable(t: int, now: int) {
    now < t <= now + MAX_DAYS_AHEAD * DAY_MS && BookableMinute(TashkentMinute(t))
  }

  predicate EditAllowed(row: OrderRow, caller: UserId, p: Patch, catalog: set<CategoryId>, now: int) {
    && row.customer == caller && Editable(row.status)
    && (p.category.Some? ==> p.category.value in catalog)
    && (p.scheduledAt.Some? && p.scheduledAt.value.Some? ==> Schedulable(p.scheduledAt.value.value, now))
  }

  predicate InvalidatesQuote(row: OrderRow, p: Patch) {
    row.status == Priced && (p.description.Some? || p.category.Some? || p.tier.Some?)
  }

  /** Editing a priced order's substance drops its quote and sends it back to Draft, on record. */
  function UpdateDraft(b: Book, caller: UserId, p: Patch, catalog: set<CategoryId>, now: int): Book {
    if !EditAllowed(b.row, caller, p, catalog, now) then b
    else if InvalidatesQuote(b.row, p) then
      Record(b, Priced, Patched(b.row, p).(status := Draft, priceMin := None, priceMax := None))
    else Rewrite(b, Patched(b.row, p))
  }

  /** The classification (complexity and suggested category) comes from outside; the price never does. */
  function Diagnose(b: Book, caller: UserId, complexity: Complexity, suggested: Option<CategoryId>,
                    catalog: map<CategoryId, Band>): Book
  {
    var category := if b.row.category.Some? then b.row.category else suggested;
    if b.row.customer != caller || !CanTransition(b.row.status, Priced) || category.None? || category.value !in catalog then b
    else
      var quote := ComputeQuote(catalog[category.value], complexity, b.row.tier);
      Record(b, b.row.status, b.row.(
        category := category, complexity := Some(complexity), status := Priced,
        priceMin := Some(quote.priceMin), priceMax := Some(quote.priceMax), platformFee := quote.platformFee,
        basis := Some(Basis(category.value, catalog[category.value], complexity, b.row.tier, b.row.description))))
  }

  predicate Locatable(row: OrderRow) {
    row.latitude.Some? && row.longitude.Some?
  }

  predicate SubmitAllowed(row: OrderRow, caller: UserId, now: int) {
    && row.customer == caller && CanTransition(row.status, Searching)
    && ((row.addressText.Some? && row.addressText.value != "") || Locatable(row))
    && (row.tier == Scheduled ==> row.scheduledAt.Some? && Schedulable(row.scheduledAt.value, now))
  }

  function Submit(b: Book, caller: UserId, now: int): Book {
    if !SubmitAllowed(b.row, caller, now) then b
    else Record(b, b.row.status, b.row.(
      status := Searching, scheduledAt := if b.row.tier != Scheduled then None else b.row.scheduledAt))
  }

  /** The compare-and-set write: takes effect only while the row still has the status that was read. */
  function Guarded(b: Book, seen: OrderRow, row: OrderRow): Book {
    if b.row.status != seen.status then b else Record(b, seen.status, row)
  }

  function CancelByCustomer(b: Book, caller: UserId, seen: OrderRow): Book {
    if seen.customer != caller || !CanTransition(seen.status, CancelledByCustomer) then b
    else Guarded(b, seen, b.row.(status := CancelledByCustomer))
  }

  /** En-route, start and master-cancellation: the assigned master moves the job along. */
  function MoveByMaster(b: Book, caller: MasterId, seen: OrderRow, to: Status): Book {
    if seen.master != Some(caller) || !CanTransition(seen.status, to) then b
    else Guarded(b, seen, b.row.(status := to))
  }

  function CompleteService(b: Book, caller: MasterId, seen: OrderRow, amount: int): Book {
    if seen.master != Some(caller) || !CanTransition(seen.status, Completed) then b
    else if seen.priceMin.Some? && seen.priceMax.Some? && !(seen.priceMin.value <= amount <= seen.priceMax.value) then b
    else Guarded(b, seen, b.row.(status := Completed, finalAmount := Some(amount)))
  }

  function ConfirmCompletion(b: Book, caller: UserId, seen: OrderRow): Book {
    if seen.customer != caller || !CanTransition(seen.status, Closed) || seen.master.None? then b
    else Guarded(b, seen, b.row.(status := Closed))
  }

  /** The order half of an accepted offer: under the row lock, so the row read is the current one. */
  function Assign(b: Book, master: MasterId): Book {
    if !CanTransition(b.row.status, Assigned) then b
    else Record(b, b.row.status, b.row.(status := Assigned, master := Some(master)))
  }

  /** The first of failSearch's two writes: the status alone. */
  function Expire(b: Book, seen: Status): Book {
    if b.row.status != seen then b else Rewrite(b, b.row.(status := Expired))
  }

  /** The second: its history entry. */
  function RecordExpiry(b: Book, seen: Status): Book {
    b.(history := b.history + [HistoryRow(Some(seen), Expired)])
  }

  // ---- What every version of the row satisfies ------------------------------------

  /** The prices on the row are the quote of its own category, complexity, tier and description. */
  predicate Quoted(r: OrderRow) {
    && r.priceMin.Some? && r.priceMax.Some? && r.basis.Some?
    && r.category == Some(r.basis.value.category) && r.complexity == Some(r.basis.value.complexity)
    && r.tier == r.basis.value.tier && r.description == r.basis.value.description
    && Quote(r.priceMin.value, r.priceMax.value, r.platformFee)
       == ComputeQuote(r.basis.value.base, r.basis.value.complexity, r.basis.value.tier)
  }

  predicate HasMaster(s: Status) {
    s in {Assigned, EnRoute, InProgress, Completed, Closed, CancelledByMaster}
  }

  predicate Finished(s: Status) {
    s == Completed || s == Closed
  }

  predicate RowOk(r: OrderRow) {
    && r.status != Disputed
    && (r.priceMin.Some? || r.priceMax.Some? ==> Quoted(r))
    && (r.status == Draft ==> r.priceMin.None? && r.priceMax.None?)
    && (r.status != Draft && r.status != CancelledByCustomer ==> r.priceMin.Some?)
    && (HasMaster(r.status) ==> r.master.Some?)
    && (r.master.Some? ==> HasMaster(r.status) || r.status == CancelledByCustomer)
    && (r.finalAmount.Some? <==> Finished(r.status))
    && (r.finalAmount.Some? ==> Quoted(r) && r.priceMin.value <= r.finalAmount.value <= r.priceMax.value)
  }

  /** Everything a customer agreed to at submission. */
  predicate SameDeal(r: OrderRow, s: OrderRow) {
    s == r.(status := s.status, finalAmount := s.finalAmount, master := s.master)
  }

  /** s is a possible later value of r: the deal is frozen once submitted, master and amount once written. */
  predicate Follows(r: OrderRow, s: OrderRow) {
    && r.customer == s.customer
    && (!Editable(r.status) ==> !Editable(s.status) && SameDeal(r, s) && Stage(r.status) <= Stage(s.status))
    && (r.master.Some? ==> s.master == r.master)
    && (r.finalAmount.Some? ==> s.finalAmount == r.finalAmount)
  }

  /** The one moment at which the history lags the row: between failSearch's two writes. */
  predicate ExpiryUnrecorded(b: Book) {
    b.row.status == Expired && Walk(b.history) && Last(b.history) == Searching
  }

  predicate BookInv(b: Book) {
    && b.row in b.versions
    && (forall v :: v in b.versions ==> RowOk(v) && Follows(v, b.row))
    && Walk(b.history)
    && (Last(b.history) == b.row.status || ExpiryUnrecorded(b))
  }

  /** A write that keeps the row's rules and, if it moves the status, records an edge of the graph. */
  predicate LegalWrite(b: Book, c: Book) {
    && RowOk(c.row) && Follows(b.row, c.row)
    && c.versions == b.versions + {c.row}
    && (|| (c.history == b.history && c.row.status == b.row.status)
        || (CanTransition(b.row.status, c.row.status)
            && c.history == b.history + [HistoryRow(Some(b.row.status), c.row.status)]))
  }

  lemma LegalWriteKeepsBook(b: Book, c: Book)
    requires BookInv(b) && LegalWrite(b, c)
    ensures BookInv(c)
  {
    forall v | v in c.versions ensures RowOk(v) && Follows(v, c.row) {
      if v in b.versions { assert Follows(v, b.row); }
    }
    if c.history != b.history {
      assert Last(b.history) == b.row.status;
      WalkExtends(b.history, c.row.status);
    }
  }

  lemma NewOrderIsSound(customer: UserId, category: Option<CategoryId>, description: string)
    ensures BookInv(NewOrder(customer, category, description))
  {
  }

  lemma EditIsLegal(b: Book, caller: UserId, p: Patch, catalog: set<CategoryId>, now: int)
    requires BookInv(b)
    ensures var c := UpdateDraft(b, caller, p, catalog, now); c == b || LegalWrite(b, c)
  {
  }

  lemma DiagnoseIsLegal(b: Book, caller: UserId, k: Complexity, suggested: Option<CategoryId>, catalog: map<CategoryId, Band>)
    requires BookInv(b)
    ensures var c := Diagnose(b, caller, k, suggested, catalog); c == b || LegalWrite(b, c)
  {
  }

  lemma SubmitIsLegal(b: Book, caller: UserId, now: int)
    requires BookInv(b)
    ensures var c := Submit(b, caller, now); c == b || LegalWrite(b, c)
  {
  }

  // The guarded writers are legal however stale the version they read.

  lemma CancelIsLegal(b: Book, caller: UserId, seen: OrderRow)
    requires BookInv(b) && seen in b.versions
    ensures var c := CancelByCustomer(b, caller, seen); c == b || LegalWrite(b, c)
  {
    assert RowOk(seen) && Follows(seen, b.row) && RowOk(b.row);
  }

  lemma MoveIsLegal(b: Book, caller: MasterId, seen: OrderRow, to: Status)
    requires to in {EnRoute, InProgress, CancelledByMaster}
    requires BookInv(b) && seen in b.versions
    ensures var c := MoveByMaster(b, caller, seen, to); c == b || LegalWrite(b, c)
  {
    assert RowOk(seen) && Follows(seen, b.row) && RowOk(b.row);
  }

  lemma CompleteIsLegal(b: Book, caller: MasterId, seen: OrderRow, amount: int)
    requires BookInv(b) && seen in b.versions
    ensures var c := CompleteService(b, caller, seen, amount); c == b || LegalWrite(b, c)
  {
    assert RowOk(seen) && Follows(seen, b.row) && RowOk(b.row);
  }

  lemma ConfirmIsLegal(b: Book, caller: UserId, seen: OrderRow)
    requires BookInv(b) && seen in b.versions
    ensures var c := ConfirmCompletion(b, caller, seen); c == b || LegalWrite(b, c)
  {
    assert RowOk(seen) && Follows(seen, b.row) && RowOk(b.row);
  }

  lemma AssignIsLegal(b: Book, master: MasterId)
    requires BookInv(b)
    ensures var c := Assign(b, master); c == b || LegalWrite(b, c)
  {
  }

  lemma ExpireKeepsBook(b: Book, seen: Status)
    requires BookInv(b) && CanTransition(seen, Expired)
    ensures BookInv(Expire(b, seen))
    ensures Expire(b, seen) != b ==> ExpiryUnrecorded(Expire(b, seen))
  {
    var c := Expire(b, seen);
    if b.row.status == seen {
      assert RowOk(b.row);
      forall v | v in c.versions ensures RowOk(v) && Follows(v, c.row) {
        if v in b.versions { assert Follows(v, b.row); }
      }
    }
  }

  lemma RecordExpiryKeepsBook(b: Book)
    requires BookInv(b) && ExpiryUnrecorded(b)
    ensures BookInv(RecordExpiry(b, Searching)) && Last(RecordExpiry(b, Searching).history) == Expired
  {
    WalkExtends(b.history, Expired);
  }

  /** What the row itself promises in every reachable state: wherever there is a price it is a fresh quote. */
  lemma QuoteIsFresh(b: Book)
    requires BookInv(b)
    ensures b.row.status != Draft && b.row.status != CancelledByCustomer ==> b.row.priceMin.Some?
    ensures b.row.priceMin.Some? <==> b.row.priceMax.Some?
    ensures b.row.priceMin.Some? ==>
              && Quoted(b.row)
              && IsQuote(b.row.basis.value.base, b.row.complexity.value, b.row.tier,
                         Quote(b.row.priceMin.value, b.row.priceMax.value, b.row.platformFee))
              && FLOOR <= b.row.priceMin.value < b.row.priceMax.value
              && b.row.priceMin.value % ROUND_TO == 0 && b.row.priceMax.value % ROUND_TO == 0
              && 0 <= b.row.platformFee <= b.row.priceMin.value
    ensures Finished(b.row.status) ==>
              && b.row.finalAmount.Some? && b.row.priceMin.Some?
              && b.row.priceMin.value <= b.row.finalAmount.value <= b.row.priceMax.value
  {
    assert RowOk(b.row);
    if b.row.priceMin.Some? {
      QuoteShape(b.row.basis.value.base, b.row.basis.value.complexity, b.row.basis.value.tier);
      QuoteMeetsBand(b.row.basis.value.base, b.row.basis.value.complexity, b.row.basis.value.tier,
                     Quote(b.row.priceMin.value, b.row.priceMax.value, b.row.platformFee));
    }
  }
}
