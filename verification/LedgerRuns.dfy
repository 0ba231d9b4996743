/**
  What holds in every state that the ledger can reach, for every sequence of committed operations.

  A log lists the operations in the order of their commits. Every log is a possible run, because an
  operation whose guard fails changes nothing.
*/
module LedgerRuns {
  import opened Wrappers
  import opened Chain
  import opened Payments
  import opened Invoices
  import opened Ledger

  function Run(log: seq<Entry>): Books {
    ApplyAll(EMPTY, log)
  }

  /** The clock never goes back. */
  ghost predicate Clocked(log: seq<Entry>) {
    forall i, j :: 0 <= i < j < |log| ==> log[i].at <= log[j].at
  }

  /** Invoices are only made in tracked currencies. */
  ghost predicate Tracked(b: Books) {
    forall id :: id in b.invoices ==> b.invoices[id].currency in b.currencies
  }

  // From the log to the history of one invoice

  /** The payments that the ledger credits to invoice `id`. */
  function Credits(payments: seq<Payment>, id: InvoiceId, currency: Currency, recipient: Address, at: int): seq<Event> {
    if payments == [] then []
    else
      var p := payments[|payments| - 1];
      Credits(payments[..|payments| - 1], id, currency, recipient, at)
      + if p.invoiceId == id && p.currency == currency && p.recipient == recipient then [Credit(p, at)] else []
  }

  function EventsOf(entry: Entry, id: InvoiceId, currency: Currency, recipient: Address): seq<Event> {
    match entry.action
    case Settle(account, tx) => Credits(PaymentsOf(tx, account), id, currency, recipient, entry.at)
    case Revoke(other) => if other == id then [Cancel(entry.at)] else []
    case MarkAll => [Sweep(entry.at)]
    case _ => []
  }

  /** What happened to invoice `id` after entry `c`. */
  function History(log: seq<Entry>, c: nat, id: InvoiceId, currency: Currency, recipient: Address): seq<Event> {
    if |log| <= c + 1 then []
    else
      History(log[..|log| - 1], c, id, currency, recipient) + EventsOf(log[|log| - 1], id, currency, recipient)
  }

  /** Entry `c` created invoice `id` as `inv`. */
  ghost predicate Origin(log: seq<Entry>, id: InvoiceId, c: nat, inv: Invoice) {
    && c < |log|
    && id !in Run(log[..c]).invoices
    && id in Run(log[..c + 1]).invoices
    && inv == Run(log[..c + 1]).invoices[id]
  }

  lemma {:induction false} ReplayAppended(inv: Invoice, a: seq<Event>, b: seq<Event>)
    ensures Replay(inv, a + b) == Replay(Replay(inv, a), b)
    decreases |b|
  {
    if b == [] {
      assert a + b == a;
    } else {
      assert (a + b)[..|a + b| - 1] == a + b[..|b| - 1];
      ReplayAppended(inv, a, b[..|b| - 1]);
    }
  }

  /** No operation removes an invoice or changes what was agreed at its creation. */
  ghost predicate Preserved(before: Books, after: Books) {
    && before.currencies <= after.currencies
    && forall id :: id in before.invoices ==>
         && id in after.invoices
         && after.invoices[id].currency == before.invoices[id].currency
         && after.invoices[id].recipient == before.invoices[id].recipient
         && after.invoices[id].metadata == before.invoices[id].metadata
  }

  /** Booking payments creates no invoice and changes none of what was agreed. */
  lemma {:induction false} BookedKeeps(b: Books, payments: seq<Payment>, at: int)
    requires Tracked(b)
    ensures Tracked(BookedAll(b, payments, at)) && Preserved(b, BookedAll(b, payments, at))
    ensures BookedAll(b, payments, at).invoices.Keys == b.invoices.Keys
    ensures BookedAll(b, payments, at).currencies == b.currencies
    decreases |payments|
  {
    if payments != [] {
      BookedKeeps(b, payments[..|payments| - 1], at);
    }
  }

  /** Booking payments acts on an invoice as the credits meant for it. */
  lemma {:induction false} BookedEvents(b: Books, payments: seq<Payment>, at: int, id: InvoiceId)
    requires Tracked(b) && id in b.invoices
    ensures id in BookedAll(b, payments, at).invoices
    ensures BookedAll(b, payments, at).invoices[id] ==
            Replay(b.invoices[id], Credits(payments, id, b.invoices[id].currency, b.invoices[id].recipient, at))
    decreases |payments|
  {
    if payments != [] {
      var rest := payments[..|payments| - 1];
      var p := payments[|payments| - 1];
      BookedKeeps(b, rest, at);
      BookedEvents(b, rest, at, id);
      var inv := b.invoices[id];
      var done := Credits(rest, id, inv.currency, inv.recipient, at);
      if p.invoiceId == id && p.currency == inv.currency && p.recipient == inv.recipient {
        assert (done + [Credit(p, at)])[..|done|] == done;
      } else {
        assert done + [] == done;
      }
    }
  }

  lemma AppliedKeeps(b: Books, entry: Entry)
    requires Tracked(b)
    ensures Tracked(Apply(b, entry)) && Preserved(b, Apply(b, entry))
  {
    match entry.action
    case Settle(account, tx) => BookedKeeps(b, PaymentsOf(tx, account), entry.at);
    case Create(_, _, _) =>
    case Revoke(_) =>
    case MarkAll =>
    case _ =>
  }

  /** One operation acts on an existing invoice as its events. */
  lemma AppliedEvents(b: Books, entry: Entry, id: InvoiceId)
    requires Tracked(b) && id in b.invoices
    ensures id in Apply(b, entry).invoices
    ensures Apply(b, entry).invoices[id] ==
            Replay(b.invoices[id], EventsOf(entry, id, b.invoices[id].currency, b.invoices[id].recipient))
  {
    match entry.action
    case Settle(account, tx) =>
      BookedEvents(b, PaymentsOf(tx, account), entry.at, id);
    case Revoke(other) =>
      assert [Cancel(entry.at)][..0] == [];
    case MarkAll =>
      assert [Sweep(entry.at)][..0] == [];
    case _ =>
  }

  /** An invoice that an operation brings in is fresh. */
  lemma AppliedCreates(b: Books, entry: Entry, id: InvoiceId)
    requires Tracked(b) && id !in b.invoices && id in Apply(b, entry).invoices
    ensures Fresh(Apply(b, entry).invoices[id], entry.at)
  {
    if entry.action.Settle? {
      BookedKeeps(b, PaymentsOf(entry.action.tx, entry.action.account), entry.at);
    }
  }

  lemma {:induction false} RunTracked(log: seq<Entry>)
    ensures Tracked(Run(log))
    decreases |log|
  {
    if log != [] {
      RunTracked(log[..|log| - 1]);
      AppliedKeeps(Run(log[..|log| - 1]), log[|log| - 1]);
    }
  }

  /** A longer run only adds invoices. */
  lemma {:induction false} RunPreserves(log: seq<Entry>, m: nat)
    requires m <= |log|
    ensures Preserved(Run(log[..m]), Run(log))
    decreases |log|
  {
    if m == |log| {
      assert log[..m] == log;
    } else {
      var n := |log| - 1;
      RunPreserves(log[..n], m);
      assert log[..n][..m] == log[..m];
      RunTracked(log[..n]);
      AppliedKeeps(Run(log[..n]), log[n]);
    }
  }

  /** Every invoice was created once, waiting and unpaid. */
  lemma {:induction false} OriginExists(log: seq<Entry>, id: InvoiceId) returns (c: nat, inv: Invoice)
    requires id in Run(log).invoices
    ensures Origin(log, id, c, inv) && Fresh(inv, log[c].at)
    decreases |log|
  {
    var n := |log| - 1;
    assert log[..n + 1] == log;
    if id in Run(log[..n]).invoices {
      c, inv := OriginExists(log[..n], id);
      assert log[..n][..c] == log[..c] && log[..n][..c + 1] == log[..c + 1];
    } else {
      c, inv := n, Run(log).invoices[id];
      RunTracked(log[..n]);
      AppliedCreates(Run(log[..n]), log[n], id);
    }
  }

  /** One more operation, one more piece of history. */
  lemma RowStep(b: Books, entry: Entry, id: InvoiceId, inv: Invoice, history: seq<Event>)
    requires Tracked(b) && id in b.invoices
    requires b.invoices[id] == Replay(inv, history)
    requires b.invoices[id].currency == inv.currency && b.invoices[id].recipient == inv.recipient
    ensures id in Apply(b, entry).invoices
    ensures Apply(b, entry).invoices[id] ==
            Replay(inv, history + EventsOf(entry, id, inv.currency, inv.recipient))
  {
    AppliedEvents(b, entry, id);
    ReplayAppended(inv, history, EventsOf(entry, id, inv.currency, inv.recipient));
  }

  /** An invoice has the same origin before the last entry, and has since kept what decides about its payments. */
  lemma OriginStays(log: seq<Entry>, id: InvoiceId, c: nat, inv: Invoice)
    requires Origin(log, id, c, inv) && c < |log| - 1
    ensures Origin(log[..|log| - 1], id, c, inv)
    ensures var b := Run(log[..|log| - 1]);
            && id in b.invoices
            && b.invoices[id].currency == inv.currency && b.invoices[id].recipient == inv.recipient
  {
    var before := log[..|log| - 1];
    assert before[..c] == log[..c] && before[..c + 1] == log[..c + 1];
    RunPreserves(before, c + 1);
  }

  /** The row of an invoice is the replay of its own history: the tables and the per-invoice view agree. */
  lemma {:induction false} RowIsReplay(log: seq<Entry>, id: InvoiceId, c: nat, inv: Invoice)
    requires Origin(log, id, c, inv)
    ensures id in Run(log).invoices
    ensures Run(log).invoices[id] == Replay(inv, History(log, c, id, inv.currency, inv.recipient))
    decreases |log|
  {
    var n := |log| - 1;
    if n == c {
      assert log[..c + 1] == log;
    } else {
      OriginStays(log, id, c, inv);
      RowIsReplay(log[..n], id, c, inv);
      RunTracked(log[..n]);
      RowStep(Run(log[..n]), log[n], id, inv, History(log[..n], c, id, inv.currency, inv.recipient));
    }
  }

  lemma {:induction false} CreditsAt(
      payments: seq<Payment>, id: InvoiceId, currency: Currency, recipient: Address, at: int)
    ensures forall ev :: ev in Credits(payments, id, currency, recipient, at) ==> ev.at == at
  {
    if payments != [] {
      CreditsAt(payments[..|payments| - 1], id, currency, recipient, at);
    }
  }

  /** Events of a later instant may be appended to a timed history. */
  lemma TimedAppended(before: seq<Event>, now: seq<Event>, start: int, at: int)
    requires Timed(before, start) && start <= at
    requires forall ev :: ev in before ==> ev.at <= at
    requires forall ev :: ev in now ==> ev.at == at
    ensures Timed(before + now, start)
    ensures forall ev :: ev in before + now ==> ev.at <= at
  {
    var all := before + now;
    forall i | 0 <= i < |all|
      ensures start <= all[i].at <= at
      ensures i >= |before| ==> all[i].at == at
    {
      if i < |before| {
        assert all[i] == before[i];
      } else {
        assert all[i] == now[i - |before|];
      }
    }
  }

  /** The history of an invoice runs forward in time from its creation to the last entry. */
  lemma {:induction false} HistoryTimed(
      log: seq<Entry>, c: nat, id: InvoiceId, currency: Currency, recipient: Address)
    requires Clocked(log) && c < |log|
    ensures Timed(History(log, c, id, currency, recipient), log[c].at)
    ensures forall ev :: ev in History(log, c, id, currency, recipient) ==> ev.at <= log[|log| - 1].at
    decreases |log|
  {
    if c + 1 < |log| {
      var n := |log| - 1;
      HistoryTimed(log[..n], c, id, currency, recipient);
      if log[n].action.Settle? {
        CreditsAt(PaymentsOf(log[n].action.tx, log[n].action.account), id, currency, recipient, log[n].at);
      }
      TimedAppended(History(log[..n], c, id, currency, recipient), EventsOf(log[n], id, currency, recipient),
                    log[c].at, log[n].at);
    }
  }

  // Theorems about every reachable state

  /** Every row is explained by the payments, cancellations and sweeps in the log; no money appears or is lost. */
  lemma EveryRowExplained(log: seq<Entry>, id: InvoiceId) returns (c: nat, inv: Invoice)
    requires Clocked(log) && id in Run(log).invoices
    ensures Origin(log, id, c, inv) && Fresh(inv, log[c].at)
    ensures Explained(inv, History(log, c, id, inv.currency, inv.recipient), Run(log).invoices[id])
  {
    c, inv := OriginExists(log, id);
    RowIsReplay(log, id, c, inv);
    HistoryTimed(log, c, id, inv.currency, inv.recipient);
    ReplayExplained(inv, log[c].at, History(log, c, id, inv.currency, inv.recipient));
  }

  /** In every reachable state a waiting invoice is short of its amount until its end has passed. */
  lemma EveryWaitingRowIsShort(log: seq<Entry>, id: InvoiceId, clock: int)
    requires Clocked(log) && id in Run(log).invoices && log[|log| - 1].at <= clock
    ensures var row := Run(log).invoices[id];
            && (row.status == Waiting && clock <= row.expireAt ==> row.overpayment < row.amount)
            && (row.status == Waiting && row.amount <= row.overpayment ==> row.expireAt < clock)
  {
    var c, inv := OriginExists(log, id);
    RowIsReplay(log, id, c, inv);
    HistoryTimed(log, c, id, inv.currency, inv.recipient);
    var history := History(log, c, id, inv.currency, inv.recipient);
    forall i | 0 <= i < |history|
      ensures history[i].at <= clock
    {
      assert history[i] in history;
    }
    WaitingIsShort(inv, log[c].at, history, clock);
  }

  /** In every reachable state exactly the paid rows carry a receipt, made between creation and end. */
  lemma EveryReceiptComplete(log: seq<Entry>, id: InvoiceId)
    requires Clocked(log) && id in Run(log).invoices
    ensures var row := Run(log).invoices[id];
            && (row.status == Paid <==> row.paidBy.Some?)
            && (row.status == Paid <==> row.paidAt.Some?)
            && (row.status == Paid <==> row.txHash.Some?)
            && (row.status == Paid ==> row.createdAt <= row.paidAt.value <= row.expireAt)
  {
    var c, inv := OriginExists(log, id);
    RowIsReplay(log, id, c, inv);
    HistoryTimed(log, c, id, inv.currency, inv.recipient);
    PaidRecord(inv, log[c].at, History(log, c, id, inv.currency, inv.recipient));
  }

  /** A paid, cancelled or expired row keeps its status and receipt in every later state. */
  lemma {:induction false} FinishedRowsStay(log: seq<Entry>, m: nat, id: InvoiceId)
    requires m <= |log| && id in Run(log[..m]).invoices && Run(log[..m]).invoices[id].status != Waiting
    ensures id in Run(log).invoices
    ensures var earlier := Run(log[..m]).invoices[id];
            var now := Run(log).invoices[id];
            now == earlier.(overpayment := now.overpayment, updatedAt := now.updatedAt)
    decreases |log|
  {
    if m == |log| {
      assert log[..m] == log;
    } else {
      var n := |log| - 1;
      assert log[..n][..m] == log[..m];
      FinishedRowsStay(log[..n], m, id);
      RunTracked(log[..n]);
      AppliedEvents(Run(log[..n]), log[n], id);
      var row := Run(log[..n]).invoices[id];
      FinishedIsFinal(row, EventsOf(log[n], id, row.currency, row.recipient));
    }
  }

  // From a request to its payment

  /** Payments in other currencies are not for this invoice. */
  lemma {:induction false} NoCredit(
      payments: seq<Payment>, id: InvoiceId, currency: Currency, recipient: Address, at: int)
    requires forall p :: p in payments ==> p.currency != currency
    ensures Credits(payments, id, currency, recipient, at) == []
  {
    if payments != [] {
      NoCredit(payments[..|payments| - 1], id, currency, recipient, at);
    }
  }

  /** Of payments in different currencies, one is credited. */
  lemma {:induction false} OneCredit(payments: seq<Payment>, p: Payment, at: int)
    requires p in payments
    requires forall i, j :: 0 <= i < j < |payments| ==> payments[i].currency != payments[j].currency
    ensures Credits(payments, p.invoiceId, p.currency, p.recipient, at) == [Credit(p, at)]
    decreases |payments|
  {
    var n := |payments| - 1;
    if payments[n] == p {
      NoCredit(payments[..n], p.invoiceId, p.currency, p.recipient, at);
    } else {
      OneCredit(payments[..n], p, at);
    }
  }

  /** The first payment of a fresh invoice pays it iff it is enough and in time. */
  lemma FirstPayment(inv: Invoice, created: int, p: Payment, at: int)
    requires Fresh(inv, created)
    ensures var row := Replay(inv, [Credit(p, at)]);
            var met := inv.amount <= p.amount && at <= inv.expireAt;
            && row.status == (if met then Paid else Waiting)
            && row.paidBy == (if met then Some(p.paidBy) else None)
            && row.overpayment == (if met then p.amount - inv.amount else p.amount)
            && row.metadata == inv.metadata
  {
    assert [Credit(p, at)][..0] == [];
    assert Replay(inv, [Credit(p, at)]) == Step(Replay(inv, []), Credit(p, at));
  }

  /** A transaction with one payment for an invoice credits it with that payment. */
  lemma TransactionCredits(b: Books, id: InvoiceId, account: Account, tx: Tx, p: Payment, at: int)
    requires Tracked(b) && id in b.invoices
    requires DistinctExtras(tx.inMessage.extras) && p in PaymentsOf(tx, account)
    requires p.invoiceId == id && p.currency == b.invoices[id].currency && p.recipient == b.invoices[id].recipient
    ensures id in Apply(b, Entry(at, Settle(account, tx))).invoices
    ensures Apply(b, Entry(at, Settle(account, tx))).invoices[id] == Replay(b.invoices[id], [Credit(p, at)])
  {
    CurrenciesDiffer(tx, account);
    OneCredit(PaymentsOf(tx, account), p, at);
    BookedEvents(b, PaymentsOf(tx, account), at, id);
  }

  /**
    A request brings an invoice into the tables exactly if it asks for a positive amount of a tracked
    currency and a positive lifetime, and names a merchant and a category code of at most four digits.
  */
  lemma RequestTakesEffect(b: Books, id: InvoiceId, request: NewInvoice, recipient: Address, at: int)
    requires id !in b.invoices
    ensures id in Apply(b, Entry(at, Create(id, request, recipient))).invoices <==>
              && request.amount.Some? && request.amount.value > 0
              && request.currency.Some? && request.currency.value in b.currencies
              && request.lifeTime > 0
              && request.merchantName != "" && 0 <= request.mcc <= 9999
    ensures Creatable(b, id, request, recipient, at) <==>
              id in Apply(b, Entry(at, Create(id, request, recipient))).invoices
  {
    var inv := ConvertNewInvoice(request, recipient, at);
    assert inv.Ok? ==> Some(inv.value.currency) == request.currency;
  }

  /** An accepted request becomes a row as asked for. */
  lemma RequestBecomesRow(b: Books, id: InvoiceId, request: NewInvoice, recipient: Address, created: int)
    requires Tracked(b) && id !in b.invoices
    requires ConvertNewInvoice(request, recipient, created).Ok? && request.currency.value in b.currencies
    ensures var b' := Apply(b, Entry(created, Create(id, request, recipient)));
            && Tracked(b') && id in b'.invoices && Fresh(b'.invoices[id], created)
            && var inv := b'.invoices[id];
               && inv.recipient == recipient
               && Some(inv.currency) == request.currency && Some(inv.amount) == request.amount
               && inv.expireAt == created + LifeSpan(request.lifeTime)
               && inv.metadata == request.metadata && inv.privateInfo == request.privateInfo
  {
  }

  /**
    What the merchant asked for is what the buyer has to pay: the invoice of an accepted request is
    paid by the first payment sent for it iff that is at least the amount asked for, booked no later
    than the lifetime after the creation. The payer is recorded, and the surplus, or else the whole
    payment, is kept as overpayment.
  */
  lemma RequestMeetsPayment(
      b: Books, id: InvoiceId, request: NewInvoice, recipient: Address, created: int,
      account: Account, tx: Tx, p: Payment, at: int)
    requires Tracked(b) && id !in b.invoices
    requires ConvertNewInvoice(request, recipient, created).Ok? && request.currency.value in b.currencies
    requires DistinctExtras(tx.inMessage.extras) && p in PaymentsOf(tx, account)
    requires p.invoiceId == id && Some(p.currency) == request.currency && p.recipient == recipient
    ensures var b' := Apply(Apply(b, Entry(created, Create(id, request, recipient))), Entry(at, Settle(account, tx)));
            var met := request.amount.value <= p.amount && at <= created + LifeSpan(request.lifeTime);
            && id in b'.invoices
            && b'.invoices[id].status == (if met then Paid else Waiting)
            && b'.invoices[id].paidBy == (if met then Some(p.paidBy) else None)
            && b'.invoices[id].overpayment == (if met then p.amount - request.amount.value else p.amount)
            && b'.invoices[id].metadata == request.metadata
  {
    RequestBecomesRow(b, id, request, recipient, created);
    var made := Apply(b, Entry(created, Create(id, request, recipient)));
    TransactionCredits(made, id, account, tx, p, at);
    FirstPayment(made.invoices[id], created, p, at);
  }
}
