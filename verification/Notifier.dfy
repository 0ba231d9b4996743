/**
  Notifications (pkg/notifier/notifier.go): one sequential sender that reads the live invoices named
  by the queue, sends them and deletes their rows.
*/
module Notifier {
  import opened Wrappers
  import opened Connections
  import opened Chain
  import opened Invoices
  import opened Ledger

  const BATCH_LIMIT := 10

  type Notice = (InvoiceId, Invoice)

  /** A message is acknowledged by the web hook; or it arrives and an error is reported; or it does not arrive. */
  datatype Sending = Acknowledged | ArrivedOnly | NotArrived

  /** The rows of all invoices but those sent. */
  function WithoutAll(rows: seq<Notification>, sent: seq<Notice>): seq<Notification> {
    if sent == [] then rows else Without(WithoutAll(rows, sent[..|sent| - 1]), sent[|sent| - 1].0)
  }

  /** Exactly the invoices that have been sent are not queued any more. */
  lemma {:induction false} SentAreDequeued(rows: seq<Notification>, sent: seq<Notice>, id: InvoiceId)
    ensures Queued(WithoutAll(rows, sent), id) <==> Queued(rows, id) && forall m :: m in sent ==> m.0 != id
    decreases |sent|
  {
    if sent != [] {
      var n := |sent| - 1;
      SentAreDequeued(rows, sent[..n], id);
      QueuedWithout(WithoutAll(rows, sent[..n]), sent[n].0);
      assert sent == sent[..n] + [sent[n]];
    }
  }

  lemma WithoutOneMore(rows: seq<Notification>, sent: seq<Notice>, m: Notice)
    ensures (sent + [m])[..|sent|] == sent
    ensures WithoutAll(rows, sent + [m]) == Without(WithoutAll(rows, sent), m.0)
  {
    assert (sent + [m])[..|sent|] == sent;
  }

  /** The messages of a batch that can be printed, in order. */
  function Printed(batch: seq<Notice>, printable: Invoice -> bool): seq<Notice> {
    if batch == [] then []
    else
      var last := batch[|batch| - 1];
      Printed(batch[..|batch| - 1], printable) + if printable(last.1) then [last] else []
  }

  lemma PrintedOneMore(batch: seq<Notice>, printable: Invoice -> bool, i: nat)
    requires i < |batch|
    ensures Printed(batch[..i + 1], printable) ==
            Printed(batch[..i], printable) + if printable(batch[i].1) then [batch[i]] else []
  {
    assert batch[..i + 1][..i] == batch[..i];
  }

  /** What comes first in a batch is printed first. */
  lemma {:induction false} PrintedPrefix(batch: seq<Notice>, printable: Invoice -> bool, n: nat)
    requires n <= |batch|
    ensures Printed(batch[..n], printable) <= Printed(batch, printable)
    decreases |batch| - n
  {
    if n == |batch| {
      assert batch[..n] == batch;
    } else {
      PrintedOneMore(batch, printable, n);
      PrintedPrefix(batch, printable, n + 1);
    }
  }

  /** Exactly the printable messages are printed, each as often as it is there. */
  lemma {:induction false} PrintedAre(batch: seq<Notice>, printable: Invoice -> bool)
    ensures forall m :: multiset(Printed(batch, printable))[m] == if printable(m.1) then multiset(batch)[m] else 0
    decreases |batch|
  {
    if batch != [] {
      PrintedAre(batch[..|batch| - 1], printable);
      assert batch == batch[..|batch| - 1] + [batch[|batch| - 1]];
    }
  }

  /**
    The queue was `before`, and a batch has been sent, all of it that can be printed if `ok`: the rows
    of what was sent are gone, but for the last message of a batch that ended early.
  */
  ghost predicate Handled(
      before: seq<Notification>, after: seq<Notification>, batch: seq<Notice>, printable: Invoice -> bool,
      sent: seq<Notice>, ok: bool)
  {
    if ok then sent == Printed(batch, printable) && after == WithoutAll(before, sent)
    else
      && sent <= Printed(batch, printable)
      && (|| after == WithoutAll(before, sent)
          || (sent != [] && after == WithoutAll(before, sent[..|sent| - 1])))
  }

  /** The next message: passed over, sent, or the end of the batch. */
  lemma HandledOneMore(
      before: seq<Notification>, rows: seq<Notification>, batch: seq<Notice>, printable: Invoice -> bool,
      sent: seq<Notice>, i: nat)
    requires i < |batch| && Handled(before, rows, batch[..i], printable, sent, true)
    ensures var m := batch[i];
            if !printable(m.1) then Handled(before, rows, batch[..i + 1], printable, sent, true)
            else
              && Handled(before, Without(rows, m.0), batch[..i + 1], printable, sent + [m], true)
              && Handled(before, rows, batch, printable, sent + [m], false)
              && Handled(before, rows, batch, printable, sent + [], false)
  {
    PrintedOneMore(batch, printable, i);
    PrintedPrefix(batch, printable, i + 1);
    WithoutOneMore(before, sent, batch[i]);
    assert sent + [] == sent;
  }

  lemma NothingRead(rows: seq<Notification>, invoices: map<InvoiceId, Invoice>)
    ensures LiveBatch([], rows, invoices)
  {
    assert OldestFirst([], rows);
  }

  class NotifierWorker {
    const storage: LedgerTables
    /** The invoices that can be converted to a message. */
    const printable: Invoice -> bool
    /** What becomes of a message, by its number. */
    const sender: nat -> Sending
    var attempts: nat
    /** What has reached the other end of the web hook. */
    var delivered: seq<Notice>

    constructor (storage: LedgerTables, printable: Invoice -> bool, sender: nat -> Sending)
      ensures this.storage == storage && this.printable == printable && this.sender == sender
      ensures attempts == 0 && delivered == []
    {
      this.storage, this.printable, this.sender := storage, printable, sender;
      attempts, delivered := 0, [];
    }

    method Send(m: Notice) returns (ok: bool)
      modifies this`attempts, this`delivered
      ensures attempts == old(attempts) + 1
      ensures ok <==> sender(old(attempts)) == Acknowledged
      ensures ok <==> !Unheard(old(attempts), attempts)
      ensures delivered == if sender(old(attempts)) == NotArrived then old(delivered) else old(delivered) + [m]
    {
      var sending := sender(attempts);
      attempts := attempts + 1;
      if sending != NotArrived {
        delivered := delivered + [m];
      }
      ok := sending == Acknowledged;
    }

    /** One of the messages from number `from` up to, but without, number `to` was not acknowledged. */
    ghost predicate Unheard(from: nat, to: nat) {
      exists n: nat :: from <= n < to && sender(n) != Acknowledged
    }

    /** Since the counters stood at `a` and `d` a message was not acknowledged, or a statement not answered. */
    ghost predicate Failing(a: nat, d: nat)
      reads this`attempts, storage.db
    {
      Unheard(a, attempts) || storage.db.Trouble(d, storage.db.statements)
    }

    /** Sends one message and deletes the rows of its invoice. */
    method NotifyOne(m: Notice) returns (ok: bool, ghost sent: seq<Notice>)
      modifies this`attempts, this`delivered, storage`notifications, storage.db
      ensures old(attempts) <= attempts && old(storage.db.statements) <= storage.db.statements
      ensures ok <==> !Failing(old(attempts), old(storage.db.statements))
      ensures delivered == old(delivered) + sent
      ensures sent == [m] || (!ok && sent == [])
      ensures storage.notifications ==
              if ok then Without(old(storage.notifications), m.0) else old(storage.notifications)
    {
      ok := Send(m);
      sent := if sender(attempts - 1) == NotArrived then [] else [m];
      if !ok {
        return;
      }
      ok := storage.DeleteInvoiceNotification(m.0);
    }

    /**
      Sends in the order of the batch, and deletes all rows of an invoice after sending it. An invoice
      that cannot be printed is passed over and stays queued; all others are sent, unless a failed
      send, which may have arrived nevertheless, or a failed delete ends the batch. Then the rows of
      the last message may remain.
    */
    method Notify(invoices: seq<Notice>) returns (ok: bool, ghost sent: seq<Notice>)
      modifies this`attempts, this`delivered, storage`notifications, storage.db
      ensures old(attempts) <= attempts && old(storage.db.statements) <= storage.db.statements
      ensures ok <==> !Failing(old(attempts), old(storage.db.statements))
      ensures delivered == old(delivered) + sent
      ensures Handled(old(storage.notifications), storage.notifications, invoices, printable, sent, ok)
    {
      sent := [];
      for i := 0 to |invoices|
        invariant old(attempts) <= attempts && old(storage.db.statements) <= storage.db.statements
        invariant !Failing(old(attempts), old(storage.db.statements))
        invariant delivered == old(delivered) + sent
        invariant Handled(old(storage.notifications), storage.notifications, invoices[..i], printable, sent, true)
      {
        ghost var rows, before := storage.notifications, sent;
        HandledOneMore(old(storage.notifications), rows, invoices, printable, before, i);
        if !printable(invoices[i].1) {
          continue;
        }
        var done;
        ghost var one;
        done, one := NotifyOne(invoices[i]);
        sent := sent + one;
        if !done {
          return false, sent;
        }
      }
      assert invoices[..|invoices|] == invoices;
      ok := true;
    }

    method ReadBatch() returns (r: Result<seq<Notice>>)
      modifies storage.db
      ensures old(storage.db.statements) <= storage.db.statements
      ensures r.Ok? ==> !storage.db.Trouble(old(storage.db.statements), storage.db.statements)
      ensures r.Err? ==> || storage.db.Trouble(old(storage.db.statements), storage.db.statements)
                         || Stray(storage.notifications, storage.invoices)
      ensures r.Ok? ==> |r.value| == if 10 < |storage.notifications| then 10 else |storage.notifications|
      ensures LiveBatch(if r.Ok? then r.value else [], storage.notifications, storage.invoices)
    {
      r := storage.GetInvoiceNotifications(BATCH_LIMIT);
      NothingRead(storage.notifications, storage.invoices);
    }

    /** One pass of the loop: read the invoices of the ten oldest rows as they are now, then send them. */
    method RunOnce() returns (ok: bool, ghost batch: seq<Notice>, ghost sent: seq<Notice>)
      modifies this`attempts, this`delivered, storage`notifications, storage.db
      ensures ok ==> !Failing(old(attempts), old(storage.db.statements))
      ensures !ok ==> || Failing(old(attempts), old(storage.db.statements))
                      || Stray(old(storage.notifications), old(storage.invoices))
      ensures |batch| <= 10
      ensures ok ==> |batch| == if 10 < |old(storage.notifications)| then 10 else |old(storage.notifications)|
      ensures LiveBatch(batch, old(storage.notifications), old(storage.invoices))
      ensures delivered == old(delivered) + sent
      ensures batch != [] ==>
                Handled(old(storage.notifications), storage.notifications, batch, printable, sent, ok)
      ensures batch == [] ==> sent == [] && storage.notifications == old(storage.notifications)
    {
      var read := ReadBatch();
      batch := if read.Ok? then read.value else [];
      if read.Err? {
        return false, batch, [];
      }
      ok, sent := Notify(read.value);
    }
  }
}
