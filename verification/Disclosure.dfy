/** Who gets the metadata of an invoice, and for how long (getEncryptedData in pkg/api/handlers.go, pkg/db/keys.go). */
module Disclosure {
  import opened Wrappers
  import opened Chain
  import opened Payments
  import opened Invoices
  import opened Ledger
  import opened LedgerRuns

  /** `Crash` is the dereference of a missing payer; `Data` is the metadata, encrypted for `key`. */
  datatype Reply = NoInvoice | NotPaid | NoKey | Crash | Unavailable | Data(key: string, metadata: string)

  /** The reply for a row that was read first, and a key table that is read second. */
  function ReplyFor(inv: Invoice, keys: map<Address, KeyRow>): Reply {
    if inv.status != Paid then NotPaid
    else if inv.paidBy.None? then Crash
    else if inv.paidBy.value in keys && keys[inv.paidBy.value].accepted then
      Data(keys[inv.paidBy.value].key, inv.metadata)
    else NoKey
  }

  function Disclose(b: Books, id: InvoiceId): Reply {
    if id in b.invoices then ReplyFor(b.invoices[id], b.keys) else NoInvoice
  }

  /** Only a failing statement hides what the tables prescribe. */
  method GetEncryptedData(tables: LedgerTables, id: InvoiceId) returns (r: Reply)
    modifies tables.db
    ensures old(tables.db.statements) <= tables.db.statements
    ensures r == Unavailable <==> tables.db.Trouble(old(tables.db.statements), tables.db.statements)
    ensures r == Unavailable || r == Disclose(tables.Contents(), id)
    ensures r == NoInvoice ==> id !in tables.invoices
    ensures r == NotPaid ==> id in tables.invoices && tables.invoices[id].status != Paid
    ensures r == NoKey ==> Discloses(tables.Contents(), id, None)
    ensures r.Data? ==> Discloses(tables.Contents(), id, Some((r.key, r.metadata)))
  {
    var inv := tables.GetInvoice(id);
    if inv.NotFound? {
      return NoInvoice;
    }
    if inv.Failed? {
      return Unavailable;
    }
    if inv.value.status != Paid {
      return NotPaid;
    }
    if inv.value.paidBy.None? {
      return Crash;
    }
    var key := tables.GetEncryptionKey(inv.value.paidBy.value);
    if key.NotFound? {
      return NoKey;
    }
    if key.Failed? {
      return Unavailable;
    }
    return Data(key.value, inv.value.metadata);
  }

  /** The invoice is paid, and `data` is the accepted key of its payer, if there is one, with its metadata. */
  ghost predicate Discloses(b: Books, id: InvoiceId, data: Option<(string, string)>) {
    && id in b.invoices && b.invoices[id].status == Paid && b.invoices[id].paidBy.Some?
    && var payer := b.invoices[id].paidBy.value;
       && (data.Some? <==> payer in b.keys && b.keys[payer].accepted)
       && (data.Some? ==> data.value == (b.keys[payer].key, b.invoices[id].metadata))
  }

  /** The payer of a paid invoice is always there to be dereferenced. */
  lemma PayerIsKnown(log: seq<Entry>, id: InvoiceId)
    requires Clocked(log)
    ensures Disclose(Run(log), id) != Crash
  {
    if id in Run(log).invoices {
      EveryReceiptComplete(log, id);
    }
  }

  /** An accepted key is neither replaced nor deleted by any operation. */
  ghost predicate KeysKept(before: Books, after: Books) {
    forall a :: a in before.keys && before.keys[a].accepted ==> a in after.keys && after.keys[a] == before.keys[a]
  }

  /** One of the payments is credited and comes from `a`. */
  ghost predicate Pays(b: Books, payments: seq<Payment>, a: Address) {
    exists p :: p in payments && p.paidBy == a && Matches(b, p)
  }

  /** Booking changes nothing of the keys but their acceptance: exactly those of credited payers become accepted. */
  lemma {:induction false} BookedKeys(b: Books, payments: seq<Payment>, at: int)
    ensures var after := BookedAll(b, payments, at);
            && after.keys.Keys == b.keys.Keys
            && (forall id :: id in after.invoices <==> id in b.invoices)
            && (forall a :: a in b.keys ==> after.keys[a] == b.keys[a].(accepted := after.keys[a].accepted))
            && (forall a :: a in b.keys ==> (after.keys[a].accepted <==> b.keys[a].accepted || Pays(b, payments, a)))
    ensures forall p :: Matches(BookedAll(b, payments, at), p) <==> Matches(b, p)
  {
    if payments != [] {
      var rest := payments[..|payments| - 1];
      var last := payments[|payments| - 1];
      BookedKeys(b, rest, at);
      assert payments == rest + [last];
      forall a
        ensures Pays(b, payments, a) <==> Pays(b, rest, a) || (last.paidBy == a && Matches(b, last))
      {
        PaysMore(b, rest, last, a);
      }
    }
  }

  lemma PaysMore(b: Books, payments: seq<Payment>, last: Payment, a: Address)
    ensures Pays(b, payments + [last], a) <==> Pays(b, payments, a) || (last.paidBy == a && Matches(b, last))
  {
    if p :| p in payments && p.paidBy == a && Matches(b, p) {
      assert p in payments + [last];
    }
    assert last in payments + [last];
  }

  /** After a settlement exactly the keys of its credited payers are accepted, besides those that were. */
  lemma SettledKeys(b: Books, account: Account, tx: Tx, at: int, a: Address)
    requires a in b.keys
    ensures var after := Apply(b, Entry(at, Settle(account, tx)));
            && a in after.keys
            && after.keys[a].key == b.keys[a].key && after.keys[a].createdAt == b.keys[a].createdAt
            && (after.keys[a].accepted <==>
                b.keys[a].accepted || exists p :: p in PaymentsOf(tx, account) && p.paidBy == a && Matches(b, p))
  {
    BookedKeys(b, PaymentsOf(tx, account), at);
  }

  lemma {:induction false} AcceptedKeysStay(log: seq<Entry>, m: nat)
    requires m <= |log|
    ensures KeysKept(Run(log[..m]), Run(log))
    decreases |log|
  {
    if m == |log| {
      assert log[..m] == log;
    } else {
      var n := |log| - 1;
      assert log[..n][..m] == log[..m];
      AcceptedKeysStay(log[..n], m);
      if log[n].action.Settle? {
        BookedKeys(Run(log[..n]), PaymentsOf(log[n].action.tx, log[n].action.account), log[n].at);
      }
    }
  }

  /** Once the metadata of an invoice can be had, it can be had forever, for the same key and unchanged. */
  lemma DisclosureIsStable(log: seq<Entry>, m: nat, id: InvoiceId)
    requires m <= |log| && Disclose(Run(log[..m]), id).Data?
    ensures Disclose(Run(log), id) == Disclose(Run(log[..m]), id)
  {
    FinishedRowsStay(log, m, id);
    AcceptedKeysStay(log, m);
  }

  /**
    The metadata that the merchant asked to be stored reaches the buyer: who commits a key, as the
    first one for the address, and then pays the invoice gets it, encrypted for that key, if the
    payment is enough and in time.
  */
  lemma KeyThenPaymentDiscloses(
      b: Books, key: string, committed: int, id: InvoiceId, request: NewInvoice, recipient: Address, created: int,
      account: Account, tx: Tx, p: Payment, at: int)
    requires Tracked(b) && id !in b.invoices && p.paidBy !in b.keys
    requires ConvertNewInvoice(request, recipient, created).Ok? && request.currency.value in b.currencies
    requires DistinctExtras(tx.inMessage.extras) && p in PaymentsOf(tx, account)
    requires p.invoiceId == id && Some(p.currency) == request.currency && p.recipient == recipient
    ensures var b1 := Apply(b, Entry(committed, CommitKey(p.paidBy, key)));
            var b2 := Apply(b1, Entry(created, Create(id, request, recipient)));
            var b3 := Apply(b2, Entry(at, Settle(account, tx)));
            var met := request.amount.value <= p.amount && at <= created + LifeSpan(request.lifeTime);
            Disclose(b3, id) == if met then Data(key, request.metadata) else NotPaid
  {
    var b1 := Apply(b, Entry(committed, CommitKey(p.paidBy, key)));
    var b2 := Apply(b1, Entry(created, Create(id, request, recipient)));
    RequestBecomesRow(b1, id, request, recipient, created);
    RequestMeetsPayment(b1, id, request, recipient, created, account, tx, p, at);
    SettledKeys(b2, account, tx, at, p.paidBy);
  }

  /** The row and the key are read one after the other; what happens in between cannot change a disclosure. */
  lemma SeparateReadsAgree(log: seq<Entry>, m: nat, id: InvoiceId)
    requires m <= |log| && id in Run(log[..m]).invoices
    requires ReplyFor(Run(log[..m]).invoices[id], Run(log).keys).Data?
    ensures Disclose(Run(log), id) == ReplyFor(Run(log[..m]).invoices[id], Run(log).keys)
  {
    FinishedRowsStay(log, m, id);
  }

  /** A committed key stays for an hour without any payment, and is not replaced in that time. */
  lemma {:induction false} FreshKeysSurvive(log: seq<Entry>, m: nat, a: Address)
    requires m <= |log| && a in Run(log[..m]).keys
    requires forall i :: m <= i < |log| ==> log[i].at <= Run(log[..m]).keys[a].createdAt + HOUR
    ensures a in Run(log).keys
    ensures Run(log).keys[a] == Run(log[..m]).keys[a].(accepted := Run(log).keys[a].accepted)
    decreases |log|
  {
    if m == |log| {
      assert log[..m] == log;
    } else {
      var n := |log| - 1;
      assert log[..n][..m] == log[..m];
      FreshKeysSurvive(log[..n], m, a);
      if log[n].action.Settle? {
        BookedKeys(Run(log[..n]), PaymentsOf(log[n].action.tx, log[n].action.account), log[n].at);
      }
    }
  }

  /** Entry `i` committed `row` as the key of `a`. */
  ghost predicate Committed(log: seq<Entry>, i: nat, a: Address, row: KeyRow) {
    i < |log| && log[i] == Entry(row.createdAt, CommitKey(a, row.key))
  }

  /** Entry `j` credited a payment that came from `a`. */
  ghost predicate PaidFrom(log: seq<Entry>, j: nat, a: Address) {
    && j < |log|
    && log[j].action.Settle?
    && exists p :: p in PaymentsOf(log[j].action.tx, log[j].action.account)
                   && p.paidBy == a && Matches(Run(log[..j]), p)
  }

  /** A stored key was committed; if it is accepted, a payment from its address was credited after that. */
  ghost predicate KeyEarned(log: seq<Entry>, a: Address, row: KeyRow) {
    exists i: nat ::
      && Committed(log, i, a, row)
      && (row.accepted ==> exists j: nat :: i < j && PaidFrom(log, j, a))
  }

  /** One operation commits a new key, or keeps the row up to its acceptance, which takes a payment. */
  lemma KeyStep(b: Books, entry: Entry, a: Address)
    requires a in Apply(b, entry).keys
    ensures var row := Apply(b, entry).keys[a];
            if a in b.keys then
              && row == b.keys[a].(accepted := row.accepted)
              && (b.keys[a].accepted ==> row.accepted)
              && (row.accepted && !b.keys[a].accepted ==>
                    entry.action.Settle? &&
                    exists p :: p in PaymentsOf(entry.action.tx, entry.action.account)
                                && p.paidBy == a && Matches(b, p))
            else entry == Entry(row.createdAt, CommitKey(a, row.key)) && !row.accepted
  {
    if entry.action.Settle? {
      BookedKeys(b, PaymentsOf(entry.action.tx, entry.action.account), entry.at);
    }
  }

  lemma {:induction false} AcceptedKeysAreEarned(log: seq<Entry>, a: Address)
    requires a in Run(log).keys
    ensures KeyEarned(log, a, Run(log).keys[a])
    decreases |log|
  {
    var n := |log| - 1;
    var before := Run(log[..n]);
    var row := Run(log).keys[a];
    KeyStep(before, log[n], a);
    if a in before.keys {
      AcceptedKeysAreEarned(log[..n], a);
      EarnedLater(log, a, before.keys[a], row);
    } else {
      assert Committed(log, n, a, row);
    }
  }

  /** What earned a key before the last entry still does. */
  lemma EarnedLater(log: seq<Entry>, a: Address, earlier: KeyRow, row: KeyRow)
    requires log != [] && KeyEarned(log[..|log| - 1], a, earlier)
    requires row == earlier.(accepted := row.accepted)
    requires row.accepted ==> earlier.accepted || PaidFrom(log, |log| - 1, a)
    ensures KeyEarned(log, a, row)
  {
    var n := |log| - 1;
    var i: nat :| Committed(log[..n], i, a, earlier)
                  && (earlier.accepted ==> exists j: nat :: i < j && PaidFrom(log[..n], j, a));
    assert Committed(log, i, a, row);
    if earlier.accepted {
      var j: nat :| i < j && PaidFrom(log[..n], j, a);
      assert log[..n][..j] == log[..j];
      assert PaidFrom(log, j, a);
    }
  }
}
