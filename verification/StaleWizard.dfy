/**
 * The pre-submission calls with a delay between their read and their unguarded write. Each writes the columns it
 * means to write, on whatever the row has become, and records the status it had read. Exactly when that is harmless.
 */
module StaleWizard {
  import opened Prelude
  import opened OrderState
  import opened Pricing
  import opened Orders

  /** A call whose checks passed on the row `seen`. */
  datatype Call =
    | Edit(seen: OrderRow, patch: Patch)
    | Price(seen: OrderRow, complexity: Complexity, category: CategoryId, base: Band)
    | Send(seen: OrderRow)

  /** The row was read from this order, and the status allowed the call. */
  predicate WellRead(b: Book, c: Call) {
    && c.seen in b.versions
    && (match c
        case Edit(seen, _) => Editable(seen.status)
        case Price(seen, _, category, _) =>
          CanTransition(seen.status, Priced) && (seen.category.Some? ==> seen.category == Some(category))
        case Send(seen) => CanTransition(seen.status, Searching))
  }

  /** The write, on the row as it is by then. */
  function Written(b: Book, c: Call): Book {
    match c
    case Edit(seen, p) =>
      if InvalidatesQuote(seen, p) then Record(b, Priced, Patched(b.row, p).(status := Draft, priceMin := None, priceMax := None))
      else Rewrite(b, Patched(b.row, p))
    case Price(seen, k, category, base) =>
      var quote := ComputeQuote(base, k, seen.tier);
      Record(b, seen.status, b.row.(
        category := Some(category), complexity := Some(k), status := Priced,
        priceMin := Some(quote.priceMin), priceMax := Some(quote.priceMax), platformFee := quote.platformFee,
        basis := Some(Basis(category, base, k, seen.tier, seen.description))))
    case Send(seen) =>
      Record(b, seen.status, b.row.(status := Searching, scheduledAt := if seen.tier != Scheduled then None else b.row.scheduledAt))
  }

  // ---- With no delay these are the atomic calls -----------------------------------

  lemma FreshEdit(b: Book, caller: UserId, p: Patch, catalog: set<CategoryId>, now: int)
    requires EditAllowed(b.row, caller, p, catalog, now)
    ensures Written(b, Edit(b.row, p)) == UpdateDraft(b, caller, p, catalog, now)
  {
  }

  lemma FreshPrice(b: Book, caller: UserId, k: Complexity, suggested: Option<CategoryId>, catalog: map<CategoryId, Band>)
    requires b.row.customer == caller && CanTransition(b.row.status, Priced)
    requires var c := if b.row.category.Some? then b.row.category else suggested; c.Some? && c.value in catalog
    ensures var c := if b.row.category.Some? then b.row.category else suggested;
            Written(b, Price(b.row, k, c.value, catalog[c.value])) == Diagnose(b, caller, k, suggested, catalog)
  {
  }

  lemma FreshSend(b: Book, caller: UserId, now: int)
    requires SubmitAllowed(b.row, caller, now)
    ensures Written(b, Send(b.row)) == Submit(b, caller, now)
  {
  }

  // ---- When a delayed write is harmless -------------------------------------------

  /** Whatever the patch names of the quote's substance, it names as it is. */
  predicate SubstanceKept(row: OrderRow, p: Patch) {
    && (p.category.Some? ==> p.category == row.category)
    && (p.description.Some? ==> p.description == Some(row.description))
    && (p.tier.Some? ==> p.tier == Some(row.tier))
  }

  /**
   * The condition, on the row at the write: its status is the one read, where the call records or leaves it; what a
   * price was computed from is unchanged; and an edit that read a draft meets a draft, or changes nothing that
   * counts.
   */
  predicate Stands(row: OrderRow, c: Call) {
    match c
    case Edit(seen, p) =>
      if InvalidatesQuote(seen, p) then row.status == Priced
      else if row.status == Draft then true
      else if row.status == Priced then SubstanceKept(row, p)
      else Patched(row, p) == row
    case Price(seen, _, _, _) => row.status == seen.status && row.tier == seen.tier && row.description == seen.description
    case Send(seen) => row.status == seen.status
  }

  lemma WalkNeedsLast(h: seq<HistoryRow>, from: Status, to: Status)
    requires Walk(h) && Walk(h + [HistoryRow(Some(from), to)])
    ensures Last(h) == from
  {
    var g := h + [HistoryRow(Some(from), to)];
    assert g[|h|].from == Some(g[|h| - 1].to);
  }

  /** A recorded status that is not the row's is no step of a walk. */
  lemma RecordNeedsStatus(b: Book, from: Status, row: OrderRow)
    requires BookInv(b) && Editable(from) && BookInv(Record(b, from, row))
    ensures b.row.status == from
  {
    WalkNeedsLast(b.history, from, row.status);
  }

  lemma SendIsHarmlessIff(b: Book, c: Call)
    requires BookInv(b) && WellRead(b, c) && c.Send?
    ensures BookInv(Written(b, c)) <==> Stands(b.row, c)
  {
    var d := Written(b, c);
    if BookInv(d) { RecordNeedsStatus(b, c.seen.status, d.row); }
    if Stands(b.row, c) {
      assert RowOk(b.row) && LegalWrite(b, d);
      LegalWriteKeepsBook(b, d);
    }
  }

  lemma PriceIsHarmlessIff(b: Book, c: Call)
    requires BookInv(b) && WellRead(b, c) && c.Price?
    ensures BookInv(Written(b, c)) <==> Stands(b.row, c)
  {
    var d := Written(b, c);
    if BookInv(d) {
      RecordNeedsStatus(b, c.seen.status, d.row);
      assert RowOk(d.row) && Quoted(d.row);
    }
    if Stands(b.row, c) {
      assert RowOk(b.row) && LegalWrite(b, d);
      LegalWriteKeepsBook(b, d);
    }
  }

  lemma UnquotingIsHarmlessIff(b: Book, c: Call)
    requires BookInv(b) && WellRead(b, c) && c.Edit? && InvalidatesQuote(c.seen, c.patch)
    ensures BookInv(Written(b, c)) <==> Stands(b.row, c)
  {
    var d := Written(b, c);
    if BookInv(d) { RecordNeedsStatus(b, Priced, d.row); }
    if Stands(b.row, c) {
      assert RowOk(b.row) && LegalWrite(b, d);
      LegalWriteKeepsBook(b, d);
    }
  }

  lemma PlainEditIsHarmlessIff(b: Book, c: Call)
    requires BookInv(b) && WellRead(b, c) && c.Edit? && !InvalidatesQuote(c.seen, c.patch)
    ensures BookInv(Written(b, c)) <==> Stands(b.row, c)
  {
    var d := Written(b, c);
    assert RowOk(b.row) && b.row in d.versions;
    if BookInv(d) {
      assert RowOk(d.row) && Follows(b.row, d.row);
      if b.row.status == Priced { assert Quoted(b.row) && Quoted(d.row); }
    }
    if Stands(b.row, c) {
      if !Editable(b.row.status) {
        assert d == Rewrite(b, b.row) && d.versions == b.versions;
      } else {
        assert LegalWrite(b, d);
        LegalWriteKeepsBook(b, d);
      }
    }
  }

  /** Of any delayed call: history, quote and the agreed deal stay sound exactly when it stands at its write. */
  lemma DelayIsHarmlessIff(b: Book, c: Call)
    requires BookInv(b) && WellRead(b, c)
    ensures BookInv(Written(b, c)) <==> Stands(b.row, c)
  {
    match c
    case Edit(seen, p) =>
      if InvalidatesQuote(seen, p) { UnquotingIsHarmlessIff(b, c); } else { PlainEditIsHarmlessIff(b, c); }
    case Price(_, _, _, _) => PriceIsHarmlessIff(b, c);
    case Send(_) => SendIsHarmlessIff(b, c);
  }

  // ---- Over runs ------------------------------------------------------------------

  /** Every call was well read, at any earlier time. */
  predicate AllRead(b: Book, calls: seq<Call>)
    decreases |calls|
  {
    calls != [] ==> WellRead(b, calls[0]) && AllRead(Written(b, calls[0]), calls[1..])
  }

  predicate AllStand(b: Book, calls: seq<Call>)
    decreases |calls|
  {
    calls != [] ==> Stands(b.row, calls[0]) && AllStand(Written(b, calls[0]), calls[1..])
  }

  predicate SoundThroughout(b: Book, calls: seq<Call>)
    decreases |calls|
  {
    BookInv(b) && (calls != [] ==> SoundThroughout(Written(b, calls[0]), calls[1..]))
  }

  /** A whole run of delayed calls is sound throughout exactly when each of them stands at its write. */
  lemma {:induction false} RunIsSoundIffAllStand(b: Book, calls: seq<Call>)
    requires BookInv(b) && AllRead(b, calls)
    ensures SoundThroughout(b, calls) <==> AllStand(b, calls)
    decreases |calls|
  {
    if calls != [] {
      DelayIsHarmlessIff(b, calls[0]);
      if Stands(b.row, calls[0]) { RunIsSoundIffAllStand(Written(b, calls[0]), calls[1..]); }
    }
  }

  /** The failing run, from every priced order: submit reads it, an edit unquotes it, submit writes. */
  lemma EditUnderSubmit(b: Book, p: Patch)
    requires BookInv(b) && InvalidatesQuote(b.row, p)
    ensures var c := Written(Written(b, Edit(b.row, p)), Send(b.row));
            && AllRead(b, [Edit(b.row, p), Send(b.row)])
            && c.row.status == Searching && c.row.priceMin.None? && !Quoted(c.row) && !Walk(c.history)
  {
    var mid := Written(b, Edit(b.row, p));
    assert [Edit(b.row, p), Send(b.row)][1..] == [Send(b.row)] && [Send(b.row)][1..] == [];
    DelayIsHarmlessIff(b, Edit(b.row, p));
    var c := Written(mid, Send(b.row));
    if Walk(c.history) { WalkNeedsLast(mid.history, Priced, Searching); }
  }
}
