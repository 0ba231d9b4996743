/**
  The ledger tables and the statements on them (pkg/db/invoices.go, pkg/db/keys.go).

  `Books` is the part of the tables that decides about money and disclosure; `Apply` says what each
  committed database operation does to it. The class holds the tables themselves: its methods run
  the statements one by one and may fail between any two of them.
*/
module Ledger {
  import opened Wrappers
  import opened Connections
  import opened Chain
  import opened Payments
  import opened Invoices

  datatype KeyRow = KeyRow(createdAt: int, accepted: bool, key: string)

  datatype Books = Books(
    currencies: set<Currency>,
    invoices: map<InvoiceId, Invoice>,
    keys: map<Address, KeyRow>)

  const EMPTY := Books({}, map[], map[])

  /** A queued notification; only the id and the time of a row are ever read back. */
  datatype Notification = Notification(id: InvoiceId, updatedAt: int)

  datatype Answer<T> = Found(value: T) | NotFound | Failed

  /**
    What became of one call of SavePayments: rolled back; committed, but the answer to the commit was
    lost; committed, but a notification could not be queued; or all done. Only the last is no error.
  */
  datatype Saving = RolledBack | Lost | Unnotified | Saved

  // Committed operations

  /** The row that a payment is booked on: same id, currency and recipient. */
  predicate Matches(b: Books, p: Payment) {
    && p.currency in b.currencies
    && p.invoiceId in b.invoices
    && b.invoices[p.invoiceId].currency == p.currency
    && b.invoices[p.invoiceId].recipient == p.recipient
  }

  function Accept(keys: map<Address, KeyRow>, address: Address): map<Address, KeyRow> {
    if address in keys then keys[address := keys[address].(accepted := true)] else keys
  }

  function Booked(b: Books, p: Payment, now: int): Books {
    if !Matches(b, p) then b
    else b.(invoices := b.invoices[p.invoiceId := Credited(b.invoices[p.invoiceId], p, now)],
            keys := Accept(b.keys, p.paidBy))
  }

  /** The payment completes a waiting invoice. */
  predicate PaysNow(b: Books, p: Payment, now: int) {
    && Matches(b, p)
    && b.invoices[p.invoiceId].status == Waiting
    && Credited(b.invoices[p.invoiceId], p, now).status == Paid
  }

  function BookedAll(b: Books, payments: seq<Payment>, now: int): Books {
    if payments == [] then b
    else Booked(BookedAll(b, payments[..|payments| - 1], now), payments[|payments| - 1], now)
  }

  /** The notifications due after the payments: one per invoice completed by them. */
  function Due(b: Books, payments: seq<Payment>, now: int): seq<Notification> {
    if payments == [] then []
    else
      var last := payments[|payments| - 1];
      var rest := payments[..|payments| - 1];
      Due(b, rest, now)
      + if PaysNow(BookedAll(b, rest, now), last, now) then [Notification(last.invoiceId, now)] else []
  }

  /** An operation as the database sees it once it is committed. */
  datatype Action =
    | Track(currencies: set<Currency>)
    | Create(id: InvoiceId, request: NewInvoice, recipient: Address)
    | Settle(account: Account, tx: Tx)
    | Revoke(id: InvoiceId)
    | MarkAll
    | CommitKey(address: Address, key: string)
    | PurgeKeys

  datatype Entry = Entry(at: int, action: Action)

  function Apply(b: Books, entry: Entry): Books {
    var at := entry.at;
    match entry.action
    case Track(currencies) => b.(currencies := b.currencies + currencies)
    case Create(id, request, recipient) =>
      var inv := ConvertNewInvoice(request, recipient, at);
      if inv.Ok? && inv.value.currency in b.currencies && id !in b.invoices
      then b.(invoices := b.invoices[id := inv.value]) else b
    case Settle(account, tx) => BookedAll(b, PaymentsOf(tx, account), at)
    case Revoke(id) =>
      if id in b.invoices then b.(invoices := b.invoices[id := CancelledAt(b.invoices[id], at)]) else b
    case MarkAll => b.(invoices := map id | id in b.invoices :: SweptAt(b.invoices[id], at))
    case CommitKey(address, key) =>
      if address in b.keys then b else b.(keys := b.keys[address := KeyRow(at, false, key)])
    case PurgeKeys =>
      b.(keys := map a | a in b.keys && (b.keys[a].accepted || at - HOUR <= b.keys[a].createdAt) :: b.keys[a])
  }

  /** The operations of `log`, one after the other. */
  function ApplyAll(b: Books, log: seq<Entry>): Books {
    if log == [] then b else Apply(ApplyAll(b, log[..|log| - 1]), log[|log| - 1])
  }

  // Statements

  /** The request is acceptable, in a tracked currency, and its id is not in use. */
  predicate Creatable(b: Books, id: InvoiceId, request: NewInvoice, recipient: Address, now: int) {
    var inv := ConvertNewInvoice(request, recipient, now);
    inv.Ok? && inv.value.currency in b.currencies && id !in b.invoices
  }

  class LedgerTables {
    const db: Connection
    var currencies: set<Currency>
    var invoices: map<InvoiceId, Invoice>
    var keys: map<Address, KeyRow>
    var notifications: seq<Notification>
    var lastProcessed: map<Address, nat>
    var processingErrors: set<(Address, nat)>

    constructor (db: Connection)
      ensures this.db == db
      ensures Contents() == EMPTY && notifications == [] && lastProcessed == map[] && processingErrors == {}
    {
      this.db := db;
      currencies, invoices, keys := {}, map[], map[];
      notifications, lastProcessed, processingErrors := [], map[], {};
    }

    function Contents(): Books
      reads this
    {
      Books(currencies, invoices, keys)
    }

    /** Currency by currency; one that is stored already is left alone. */
    method SaveCurrencies(configured: set<Currency>) returns (ok: bool)
      modifies this`currencies, db
      ensures old(db.statements) <= db.statements
      ensures ok <==> !db.Trouble(old(db.statements), db.statements)
      ensures old(currencies) <= currencies <= old(currencies) + configured
      ensures ok ==> currencies == old(currencies) + configured
      ensures ok ==> Contents() == Apply(old(Contents()), Entry(0, Track(configured)))
    {
      var todo := configured;
      while todo != {}
        invariant todo <= configured && currencies == old(currencies) + (configured - todo)
        invariant old(db.statements) <= db.statements && !db.Trouble(old(db.statements), db.statements)
        decreases todo
      {
        var cur :| cur in todo;
        ok := db.Exec();
        if !ok {
          return false;
        }
        currencies := currencies + {cur};
        todo := todo - {cur};
      }
      ok := true;
    }

    /** The row of a notification: the currency of its invoice is looked up, then the row is inserted. */
    method QueueRow(row: Notification) returns (ok: bool)
      modifies this`notifications, db
      ensures old(db.statements) <= db.statements
      ensures ok <==> !db.Trouble(old(db.statements), db.statements)
      ensures notifications == if ok then old(notifications) + [row] else old(notifications)
    {
      ok := db.Exec();
      if !ok {
        return false;
      }
      ok := db.Exec();
      if !ok {
        return false;
      }
      notifications := notifications + [row];
    }

    /**
      The invoice and its notification are stored one after the other: a failure of the second leaves
      the invoice. Apart from failing statements only a request that is not creatable is refused.
    */
    method CreateInvoice(id: InvoiceId, request: NewInvoice, recipient: Address, now: int) returns (ok: bool)
      modifies this`invoices, this`notifications, db
      ensures old(db.statements) <= db.statements
      ensures ok <==> Creatable(old(Contents()), id, request, recipient, now)
                      && !db.Trouble(old(db.statements), db.statements)
      ensures || Contents() == old(Contents())
              || Contents() == Apply(old(Contents()), Entry(now, Create(id, request, recipient)))
      ensures ok ==> id !in old(invoices) && id in invoices && Fresh(invoices[id], now)
      ensures ok ==> Contents() == Apply(old(Contents()), Entry(now, Create(id, request, recipient)))
      ensures notifications == if ok then old(notifications) + [Notification(id, now)] else old(notifications)
    {
      var inv := ConvertNewInvoice(request, recipient, now);
      if inv.Err? {
        return false;
      }
      ok := db.Exec();
      if !ok || inv.value.currency !in currencies {
        return false;
      }
      ok := db.Exec();
      if !ok || id in invoices {
        return false;
      }
      invoices := invoices[id := inv.value];
      ok := QueueRow(Notification(id, now));
    }

    /** The row, and then its currency. */
    method GetInvoice(id: InvoiceId) returns (r: Answer<Invoice>)
      modifies db
      ensures old(db.statements) <= db.statements
      ensures r.Failed? <==> db.Trouble(old(db.statements), db.statements)
      ensures r.Found? ==> id in invoices && r.value == invoices[id]
      ensures r.NotFound? ==> id !in invoices
    {
      var ok := db.Exec();
      if !ok {
        return Failed;
      }
      if id !in invoices {
        return NotFound;
      }
      ok := db.Exec();
      if !ok {
        return Failed;
      }
      return Found(invoices[id]);
    }

    /** A failure may hide a cancellation that did happen; `NotFound` does not. */
    method CancelInvoice(id: InvoiceId, now: int) returns (r: Answer<Invoice>)
      modifies this`invoices, this`notifications, db
      ensures old(db.statements) <= db.statements
      ensures r.Failed? <==> db.Trouble(old(db.statements), db.statements)
      ensures Contents() == old(Contents()) || Contents() == Apply(old(Contents()), Entry(now, Revoke(id)))
      ensures r.Found? ==> id in old(invoices)
                           && old(invoices)[id].status == Waiting && now < old(invoices)[id].expireAt
      ensures r.Found? ==> r.value.status == Cancelled && invoices == old(invoices)[id := r.value]
      ensures r.Found? ==> Contents() == Apply(old(Contents()), Entry(now, Revoke(id)))
      ensures r.NotFound? ==> Contents() == old(Contents()) == Apply(old(Contents()), Entry(now, Revoke(id)))
      ensures notifications == if r.Found? then old(notifications) + [Notification(id, now)] else old(notifications)
    {
      var ok := db.Exec();
      if !ok {
        return Failed;
      }
      if id !in invoices || invoices[id].status != Waiting || invoices[id].expireAt <= now {
        return NotFound;
      }
      invoices := invoices[id := invoices[id].(status := Cancelled, updatedAt := now)];
      r := GetInvoice(id);
      if !r.Found? {
        return;
      }
      ok := QueueRow(Notification(id, now));
      if !ok {
        return Failed;
      }
    }

    /** Sweeps all overdue invoices in one statement, then queues their notifications one by one. */
    method MarkExpired(now: int) returns (ok: bool)
      modifies this`invoices, this`notifications, db
      ensures old(db.statements) <= db.statements
      ensures ok <==> !db.Trouble(old(db.statements), db.statements)
      ensures Contents() == old(Contents()) || Contents() == Apply(old(Contents()), Entry(now, MarkAll))
      ensures ok ==> Contents() == Apply(old(Contents()), Entry(now, MarkAll))
      ensures old(notifications) <= notifications
      ensures forall n :: n in notifications[|old(notifications)|..] ==>
                n.id in old(invoices) && old(invoices)[n.id].status == Waiting && invoices[n.id].status == Expired
      ensures ok ==> forall id :: id in invoices && invoices[id] != old(invoices)[id] ==>
                       Notification(id, now) in notifications
    {
      ok := db.Exec();
      if !ok {
        return false;
      }
      var overdue := set id | id in invoices && invoices[id].status == Waiting && invoices[id].expireAt < now;
      invoices := map id | id in invoices ::
        if id in overdue then invoices[id].(status := Expired, updatedAt := now) else invoices[id];
      assert invoices == Apply(old(Contents()), Entry(now, MarkAll)).invoices;
      ok := QueueSwept(overdue, now);
    }

    /** Reads the swept invoices one by one and queues them. */
    method QueueSwept(overdue: set<InvoiceId>, ghost now: int) returns (ok: bool)
      requires forall id :: id in overdue ==> id in invoices && invoices[id].updatedAt == now
      modifies this`notifications, db
      ensures old(db.statements) <= db.statements
      ensures ok <==> !db.Trouble(old(db.statements), db.statements)
      ensures old(notifications) <= notifications
      ensures forall n :: n in notifications[|old(notifications)|..] ==> n.id in overdue
      ensures ok ==> forall id :: id in overdue ==> Notification(id, now) in notifications
    {
      ghost var start := |notifications|;
      var todo := overdue;
      while todo != {}
        invariant todo <= overdue
        invariant start <= |notifications| && old(notifications) == notifications[..start]
        invariant forall n :: n in notifications[start..] ==> n.id in overdue
        invariant forall id :: id in overdue - todo ==> Notification(id, now) in notifications
        invariant old(db.statements) <= db.statements && !db.Trouble(old(db.statements), db.statements)
        decreases todo
      {
        var id :| id in todo;
        var inv := GetInvoice(id);
        if !inv.Found? {
          return false;
        }
        ok := QueueRow(Notification(id, inv.value.updatedAt));
        if !ok {
          return false;
        }
        todo := todo - {id};
      }
      ok := true;
    }

    /** One payment inside the transaction that has seen `b`; the second result are the invoices it completed. */
    method ProcessPayment(b: Books, p: Payment, now: int) returns (r: Result<(Books, seq<Notification>)>)
      modifies db
      ensures old(db.statements) <= db.statements
      ensures r.Ok? <==> !db.Trouble(old(db.statements), db.statements)
      ensures r.Ok? ==> r.value.0 == Booked(b, p, now)
      ensures r.Ok? ==> r.value.1 == if PaysNow(b, p, now) then [Notification(p.invoiceId, now)] else []
    {
      var ok := db.Exec();
      if !ok {
        return Err;
      }
      if p.currency !in b.currencies {
        return Ok((b, []));
      }
      ok := db.Exec();
      if !ok {
        return Err;
      }
      if p.invoiceId !in b.invoices || b.invoices[p.invoiceId].currency != p.currency
         || b.invoices[p.invoiceId].recipient != p.recipient {
        return Ok((b, []));
      }
      var row := b.invoices[p.invoiceId];
      var status, amount, overpayment := row.status, row.amount, row.overpayment;
      ok := db.Exec();
      if !ok {
        return Err;
      }
      var keys := Accept(b.keys, p.paidBy);
      overpayment := overpayment + p.amount;
      ok := db.Exec();
      if !ok {
        return Err;
      }
      var updated := row.(overpayment := overpayment, updatedAt := now);
      if status != Waiting || row.expireAt < now {
        return Ok((b.(invoices := b.invoices[p.invoiceId := updated], keys := keys), []));
      }
      if overpayment < amount {
        return Ok((b.(invoices := b.invoices[p.invoiceId := updated], keys := keys), []));
      }
      overpayment := overpayment - amount;
      ok := db.Exec();
      if !ok {
        return Err;
      }
      updated := updated.(status := Paid, paidBy := Some(p.paidBy), overpayment := overpayment,
                          paidAt := Some(now), txHash := Some(p.txHash));
      return Ok((b.(invoices := b.invoices[p.invoiceId := updated], keys := keys), [Notification(p.invoiceId, now)]));
    }

    /** All payments of a transaction, one after the other, before anything is committed. */
    method BookPayments(b: Books, payments: seq<Payment>, now: int) returns (r: Result<(Books, seq<Notification>)>)
      modifies db
      ensures old(db.statements) <= db.statements
      ensures r.Ok? <==> !db.Trouble(old(db.statements), db.statements)
      ensures r.Ok? ==> r.value.0 == BookedAll(b, payments, now) && r.value.1 == Due(b, payments, now)
    {
      var tx, res := b, [];
      for i := 0 to |payments|
        invariant tx == BookedAll(b, payments[..i], now) && res == Due(b, payments[..i], now)
        invariant old(db.statements) <= db.statements && !db.Trouble(old(db.statements), db.statements)
      {
        var one := ProcessPayment(tx, payments[i], now);
        if one.Err? {
          return Err;
        }
        assert payments[..i + 1][..i] == payments[..i];
        tx, res := one.value.0, res + one.value.1;
      }
      assert payments[..|payments|] == payments;
      return Ok((tx, res));
    }

    /** Everything inside the transaction, up to its COMMIT: nothing of it shows in the tables yet. */
    method PreparePayments(payments: Result<seq<Payment>>, now: int) returns (r: Result<(Books, seq<Notification>)>)
      modifies db
      ensures old(db.statements) <= db.statements
      ensures r.Ok? <==> !db.Trouble(old(db.statements), db.statements)
      ensures r.Ok? ==>
                && r.value.0 == BookedAll(Contents(), if payments.Ok? then payments.value else [], now)
                && r.value.1 == Due(Contents(), if payments.Ok? then payments.value else [], now)
    {
      var ok := db.Exec();
      if !ok {
        return Err;
      }
      if payments.Ok? {
        r := BookPayments(Contents(), payments.value, now);
        if r.Err? {
          return;
        }
      } else {
        ok := db.Exec();
        if !ok {
          return Err;
        }
        r := Ok((Contents(), []));
      }
      ok := db.Exec();
      if !ok {
        return Err;
      }
    }

    /** The whole transaction; `Unanswered` means that it was committed and the answer lost. */
    method CommitPayments(account: Address, txLt: nat, payments: Result<seq<Payment>>, now: int)
      returns (reply: Reply, rows: seq<Notification>)
      modifies this`invoices, this`keys, this`lastProcessed, this`processingErrors, db
      ensures old(db.statements) <= db.statements
      ensures reply == Done <==> !db.Trouble(old(db.statements), db.statements)
      ensures reply == Refused ==> unchanged(this)
      ensures reply != Refused ==>
                && Contents() == BookedAll(old(Contents()), if payments.Ok? then payments.value else [], now)
                && lastProcessed ==
                     (if account in old(lastProcessed) then old(lastProcessed)[account := txLt] else old(lastProcessed))
                && processingErrors == old(processingErrors) + if payments.Err? then {(account, txLt)} else {}
      ensures reply != Refused ==> rows == Due(old(Contents()), if payments.Ok? then payments.value else [], now)
    {
      var booked := PreparePayments(payments, now);
      if booked.Err? {
        return Refused, [];
      }
      reply := db.Send();
      if reply == Refused {
        return Refused, [];
      }
      BookedKeepsCurrencies(Contents(), if payments.Ok? then payments.value else [], now);
      invoices, keys, rows := booked.value.0.invoices, booked.value.0.keys, booked.value.1;
      if account in lastProcessed {
        lastProcessed := lastProcessed[account := txLt];
      }
      if payments.Err? {
        processingErrors := processingErrors + {(account, txLt)};
      }
    }

    /**
      One database transaction books the payments (or the parsing error) and moves the cursor of the
      account; the notifications follow in separate statements. The caller sees an error in three
      cases: nothing was committed; everything was, but the answer to the commit got lost; or
      everything was, and notifications are missing.
    */
    method SavePayments(account: Address, txLt: nat, payments: Result<seq<Payment>>, now: int)
      returns (ok: bool, ghost saving: Saving)
      modifies this, db
      ensures old(db.statements) <= db.statements
      ensures ok <==> saving == Saved
      ensures ok <==> !db.Trouble(old(db.statements), db.statements)
      ensures currencies == old(currencies)
      ensures saving == RolledBack ==> unchanged(this)
      ensures saving != RolledBack ==>
                && Contents() == BookedAll(old(Contents()), if payments.Ok? then payments.value else [], now)
                && lastProcessed ==
                     (if account in old(lastProcessed) then old(lastProcessed)[account := txLt] else old(lastProcessed))
                && processingErrors == old(processingErrors) + if payments.Err? then {(account, txLt)} else {}
      ensures saving != RolledBack ==>
                var due := Due(old(Contents()), if payments.Ok? then payments.value else [], now);
                && old(notifications) <= notifications <= old(notifications) + due
                && (saving == Saved ==> notifications == old(notifications) + due)
                && (saving == Lost ==> notifications == old(notifications))
                && (saving == Unnotified ==> due != [])
    {
      var reply, rows := CommitPayments(account, txLt, payments, now);
      if reply == Refused {
        return false, RolledBack;
      }
      if reply == Unanswered {
        return false, Lost;
      }
      ok := QueueAll(rows);
      saving := if ok then Saved else Unnotified;
    }

    /** Inserts the rows one by one; stops at the first failure. */
    method QueueAll(rows: seq<Notification>) returns (ok: bool)
      modifies this`notifications, db
      ensures old(db.statements) <= db.statements
      ensures ok <==> !db.Trouble(old(db.statements), db.statements)
      ensures old(notifications) <= notifications <= old(notifications) + rows
      ensures ok ==> notifications == old(notifications) + rows
      ensures !ok ==> rows != []
    {
      for i := 0 to |rows|
        invariant notifications == old(notifications) + rows[..i]
        invariant old(db.statements) <= db.statements && !db.Trouble(old(db.statements), db.statements)
      {
        ok := QueueRow(rows[i]);
        if !ok {
          return false;
        }
      }
      ok := true;
    }

    // Notification queue

    /**
      The oldest `limit` rows in order of their time, each with its invoice as it is now. Apart from
      failing statements only a row without invoice is an error.
    */
    method GetInvoiceNotifications(limit: nat) returns (r: Result<seq<(InvoiceId, Invoice)>>)
      modifies db
      ensures old(db.statements) <= db.statements
      ensures r.Ok? ==> !db.Trouble(old(db.statements), db.statements)
      ensures r.Err? ==> || db.Trouble(old(db.statements), db.statements)
                         || Stray(notifications, invoices)
      ensures r.Ok? ==> |r.value| == if limit < |notifications| then limit else |notifications|
      ensures r.Ok? ==> LiveBatch(r.value, notifications, invoices)
    {
      var ok := db.Exec();
      if !ok {
        return Err;
      }
      var rows := PickOldest(notifications, limit);
      var res: seq<(InvoiceId, Invoice)> := [];
      for i := 0 to |rows|
        invariant |res| == i
        invariant forall j :: 0 <= j < i ==> IsLive(res[j], rows[j].id, invoices)
        invariant old(db.statements) <= db.statements && !db.Trouble(old(db.statements), db.statements)
      {
        var inv := GetInvoice(rows[i].id);
        if !inv.Found? {
          PickedAreRows(rows, notifications, i);
          assert Stray(notifications, invoices) || inv.Failed?;
          return Err;
        }
        res := res + [(rows[i].id, inv.value)];
      }
      return Ok(res);
    }

    /** Removes every row of the invoice, whatever change of the invoice queued it. */
    method DeleteInvoiceNotification(id: InvoiceId) returns (ok: bool)
      modifies this`notifications, db
      ensures db.statements == old(db.statements) + 1
      ensures ok <==> !db.Trouble(old(db.statements), db.statements)
      ensures notifications == if ok then Without(old(notifications), id) else old(notifications)
    {
      ok := db.Exec();
      if !ok {
        return false;
      }
      var rows := notifications;
      var kept: seq<Notification> := [];
      for i := 0 to |rows|
        invariant kept == Without(rows[..i], id)
      {
        if rows[i].id != id {
          kept := kept + [rows[i]];
        }
        assert rows[..i + 1][..i] == rows[..i];
      }
      assert rows[..|rows|] == rows;
      notifications := kept;
      ok := true;
    }

    /** Removes rows that are more than five days old. */
    method DeleteOldNotifications(now: int) returns (ok: bool)
      modifies this`notifications, db
      ensures db.statements == old(db.statements) + 1
      ensures ok <==> !db.Trouble(old(db.statements), db.statements)
      ensures notifications ==
              if ok then Recent(old(notifications), now - 432_000 * SECOND) else old(notifications)
    {
      ok := db.Exec();
      if !ok {
        return false;
      }
      var rows := notifications;
      var kept: seq<Notification> := [];
      for i := 0 to |rows|
        invariant kept == Recent(rows[..i], now - 5 * 24 * HOUR)
      {
        if !(rows[i].updatedAt < now - 5 * 24 * HOUR) {
          kept := kept + [rows[i]];
        }
        assert rows[..i + 1][..i] == rows[..i];
      }
      assert rows[..|rows|] == rows;
      notifications := kept;
      ok := true;
    }

    // Keys

    /** The first key committed for an address wins. */
    method SaveEncryptionKey(address: Address, key: string, now: int) returns (ok: bool)
      modifies this`keys, db
      ensures db.statements == old(db.statements) + 1
      ensures ok <==> !db.Trouble(old(db.statements), db.statements)
      ensures Contents() == if ok then Apply(old(Contents()), Entry(now, CommitKey(address, key))) else old(Contents())
      ensures ok ==> keys == if address in old(keys) then old(keys) else old(keys)[address := KeyRow(now, false, key)]
    {
      ok := db.Exec();
      if !ok {
        return false;
      }
      if address !in keys {
        keys := keys[address := KeyRow(now, false, key)];
      }
      ok := true;
    }

    method GetEncryptionKey(address: Address) returns (r: Answer<string>)
      modifies db
      ensures db.statements == old(db.statements) + 1
      ensures r.Failed? <==> db.Trouble(old(db.statements), db.statements)
      ensures r.Found? ==> address in keys && keys[address].accepted && r.value == keys[address].key
      ensures r.NotFound? ==> address !in keys || !keys[address].accepted
    {
      var ok := db.Exec();
      if !ok {
        return Failed;
      }
      if address in keys && keys[address].accepted {
        return Found(keys[address].key);
      }
      return NotFound;
    }

    /** What remains, unchanged, is accepted or at most an hour old, and all of that remains. */
    method DeleteExpiredKeys(now: int) returns (ok: bool)
      modifies this`keys, db
      ensures db.statements == old(db.statements) + 1
      ensures ok <==> !db.Trouble(old(db.statements), db.statements)
      ensures Contents() == if ok then Apply(old(Contents()), Entry(now, PurgeKeys)) else old(Contents())
      ensures ok ==> forall a :: a in keys <==>
                       a in old(keys) && (old(keys)[a].accepted || now <= old(keys)[a].createdAt + 3600 * SECOND)
      ensures forall a :: a in keys ==> a in old(keys) && keys[a] == old(keys)[a]
    {
      ok := db.Exec();
      if !ok {
        return false;
      }
      keys := map a | a in keys && !(keys[a].createdAt < now - HOUR && !keys[a].accepted) :: keys[a];
      ok := true;
    }
  }

  /** `picked` are rows of the queue in order of their time, and none of the others is older. */
  ghost predicate OldestFirst(picked: seq<Notification>, rows: seq<Notification>) {
    && multiset(picked) <= multiset(rows)
    && (forall i, j :: 0 <= i < j < |picked| ==> picked[i].updatedAt <= picked[j].updatedAt)
    && (forall n, m :: n in picked && m in multiset(rows) - multiset(picked) ==> n.updatedAt <= m.updatedAt)
  }

  lemma PickedAreRows(picked: seq<Notification>, rows: seq<Notification>, i: nat)
    requires OldestFirst(picked, rows) && i < |picked|
    ensures picked[i] in rows
  {
    assert picked[i] in multiset(picked);
    assert picked[i] in multiset(rows);
  }

  /** A row of the queue names no invoice. */
  ghost predicate Stray(rows: seq<Notification>, invoices: map<InvoiceId, Invoice>) {
    exists n :: n in rows && n.id !in invoices
  }

  /** `entry` is invoice `id` as it is in the table. */
  ghost predicate IsLive(entry: (InvoiceId, Invoice), id: InvoiceId, invoices: map<InvoiceId, Invoice>) {
    entry.0 == id && id in invoices && entry.1 == invoices[id]
  }

  /** `batch` shows the live invoices of the oldest rows of the queue, in order. */
  ghost predicate LiveBatch(
      batch: seq<(InvoiceId, Invoice)>, rows: seq<Notification>, invoices: map<InvoiceId, Invoice>)
  {
    exists picked: seq<Notification> ::
      && OldestFirst(picked, rows) && |picked| == |batch|
      && forall i :: 0 <= i < |batch| ==> IsLive(batch[i], picked[i].id, invoices)
  }

  /** `picked` and `rest` are the rows, and `picked` are the oldest of them in order. */
  ghost predicate Split(picked: seq<Notification>, rest: seq<Notification>, rows: seq<Notification>) {
    && |picked| + |rest| == |rows|
    && multiset(picked) + multiset(rest) == multiset(rows)
    && (forall i, j :: 0 <= i < j < |picked| ==> picked[i].updatedAt <= picked[j].updatedAt)
    && (forall n, m :: n in picked && m in rest ==> n.updatedAt <= m.updatedAt)
  }

  /** ORDER BY updated_at LIMIT `limit`. */
  method PickOldest(rows: seq<Notification>, limit: nat) returns (picked: seq<Notification>)
    ensures |picked| == if limit < |rows| then limit else |rows|
    ensures OldestFirst(picked, rows)
  {
    picked := [];
    var rest := rows;
    while rest != [] && |picked| < limit
      invariant |picked| <= limit && Split(picked, rest, rows)
      decreases |rest|
    {
      var oldest := Oldest(rest);
      SplitOne(picked, rest, rows, oldest);
      picked := picked + [rest[oldest]];
      rest := rest[..oldest] + rest[oldest + 1..];
    }
    assert multiset(rows) - multiset(picked) == multiset(rest);
  }

  lemma SplitOne(picked: seq<Notification>, rest: seq<Notification>, rows: seq<Notification>, oldest: nat)
    requires Split(picked, rest, rows) && oldest < |rest|
    requires forall i :: 0 <= i < |rest| ==> rest[oldest].updatedAt <= rest[i].updatedAt
    ensures Split(picked + [rest[oldest]], rest[..oldest] + rest[oldest + 1..], rows)
  {
    WithoutOne(rest, oldest);
    assert forall n :: n in rest ==> rest[oldest].updatedAt <= n.updatedAt;
    assert rest[oldest] in rest;
    assert forall n :: n in picked ==> n.updatedAt <= rest[oldest].updatedAt;
  }

  lemma WithoutOne(rows: seq<Notification>, i: nat)
    requires i < |rows|
    ensures var rest := rows[..i] + rows[i + 1..];
            && multiset(rows) == multiset(rest) + multiset{rows[i]}
            && forall n :: n in rest ==> n in rows
  {
    assert rows == rows[..i] + [rows[i]] + rows[i + 1..];
  }

  /** A row for the invoice waits in the queue. */
  ghost predicate Queued(notifications: seq<Notification>, id: InvoiceId) {
    exists i :: 0 <= i < |notifications| && notifications[i].id == id
  }

  /** The rows of all other invoices, in their order. */
  function Without(rows: seq<Notification>, id: InvoiceId): seq<Notification> {
    if rows == [] then []
    else
      var last := rows[|rows| - 1];
      Without(rows[..|rows| - 1], id) + if last.id == id then [] else [last]
  }

  /** Exactly the rows of the invoice are gone: every other row is there as often as before. */
  lemma {:induction false} WithoutKeepsOthers(rows: seq<Notification>, id: InvoiceId)
    ensures forall n :: multiset(Without(rows, id))[n] == if n.id == id then 0 else multiset(rows)[n]
    decreases |rows|
  {
    if rows != [] {
      WithoutKeepsOthers(rows[..|rows| - 1], id);
      assert rows == rows[..|rows| - 1] + [rows[|rows| - 1]];
    }
  }

  lemma QueuedWithout(rows: seq<Notification>, id: InvoiceId)
    ensures forall other :: Queued(Without(rows, id), other) <==> other != id && Queued(rows, other)
  {
    WithoutKeepsOthers(rows, id);
    forall other
      ensures Queued(Without(rows, id), other) <==> other != id && Queued(rows, other)
    {
      QueuedIsCounted(rows, other);
      QueuedIsCounted(Without(rows, id), other);
    }
  }

  /** The rows from time `limit` on, in their order. */
  function Recent(rows: seq<Notification>, limit: int): seq<Notification> {
    if rows == [] then []
    else
      var last := rows[|rows| - 1];
      Recent(rows[..|rows| - 1], limit) + if limit <= last.updatedAt then [last] else []
  }

  lemma {:induction false} RecentKeepsOthers(rows: seq<Notification>, limit: int)
    ensures forall n :: multiset(Recent(rows, limit))[n] == if limit <= n.updatedAt then multiset(rows)[n] else 0
    decreases |rows|
  {
    if rows != [] {
      RecentKeepsOthers(rows[..|rows| - 1], limit);
      assert rows == rows[..|rows| - 1] + [rows[|rows| - 1]];
    }
  }

  lemma QueuedIsCounted(rows: seq<Notification>, id: InvoiceId)
    ensures Queued(rows, id) <==> exists n :: n in multiset(rows) && n.id == id
  {
    if Queued(rows, id) {
      var i :| 0 <= i < |rows| && rows[i].id == id;
      assert rows[i] in multiset(rows);
    }
  }

  /** The position of a row with the earliest time. */
  method Oldest(rows: seq<Notification>) returns (oldest: nat)
    requires rows != []
    ensures oldest < |rows|
    ensures forall i :: 0 <= i < |rows| ==> rows[oldest].updatedAt <= rows[i].updatedAt
  {
    oldest := 0;
    for i := 0 to |rows|
      invariant oldest < |rows|
      invariant forall j :: 0 <= j < i ==> rows[oldest].updatedAt <= rows[j].updatedAt
    {
      if rows[i].updatedAt < rows[oldest].updatedAt {
        oldest := i;
      }
    }
  }

  lemma {:induction false} BookedKeepsCurrencies(b: Books, payments: seq<Payment>, now: int)
    ensures BookedAll(b, payments, now).currencies == b.currencies
  {
    if payments != [] {
      BookedKeepsCurrencies(b, payments[..|payments| - 1], now);
    }
  }
}
