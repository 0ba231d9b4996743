/** Reading payments out of transactions (pkg/indexer/indexer.go, pkg/core). */
module Payments {
  import opened Wrappers
  import opened Chain

  datatype Currency = Ton | Jetton(master: Address) | Extra(extraId: nat)

  datatype Payment = Payment(
    invoiceId: InvoiceId,
    currency: Currency,
    amount: int,
    paidBy: Address,
    recipient: Address,
    txHash: Hash)

  /** `jetton` is the master contract when the account is a jetton wallet of `recipient`. */
  datatype AccountInfo = AccountInfo(maxDepthLt: nat, recipient: Address, jetton: Option<Address>)

  datatype Account = Account(id: Address, info: AccountInfo)

  const TWO_63 := 0x8000_0000_0000_0000
  const TWO_64 := 0x1_0000_0000_0000_0000

  /** Go's conversion to int64: the value modulo 2^64, read as two's complement. */
  function ToInt64(v: int): (r: int)
    ensures -TWO_63 <= r < TWO_63
    ensures (r - v) % TWO_64 == 0
    ensures -TWO_63 <= v < TWO_63 ==> r == v
  {
    var m := v % TWO_64;
    if m < TWO_63 then m else m - TWO_64
  }

  // Native payments

  /** One payment per extra currency with a non-zero amount, in the order given. */
  function ExtraPayments(tx: Tx, account: Account, id: InvoiceId, extras: seq<(nat, nat)>): seq<Payment> {
    if extras == [] then []
    else
      var last := extras[|extras| - 1];
      ExtraPayments(tx, account, id, extras[..|extras| - 1])
      + if last.1 == 0 then []
        else [Payment(id, Extra(last.0), last.1, tx.inMessage.source, account.id, Digest(tx))]
  }

  /** The payments of a transaction of the recipient's own wallet; `Err` is a parsing error. */
  function NativePayments(tx: Tx, account: Account): Result<seq<Payment>> {
    if !tx.success || tx.inMessage.kind != Int || !tx.inMessage.operation.Transfer? then Ok([])
    else match tx.inMessage.operation.memo
      case Undecodable => Err
      case Unrelated => Ok([])
      case NotAnId => Ok([])
      case ForInvoice(id) =>
        Ok([Payment(id, Ton, ToInt64(tx.inMessage.value), tx.inMessage.source, account.id, Digest(tx))]
           + ExtraPayments(tx, account, id, tx.inMessage.extras))
  }

  /** A transaction that took effect and was started by an internal message. */
  predicate TookEffect(tx: Tx) {
    tx.success && tx.inMessage.kind == Int
  }

  /** It carries a transfer with this kind of reference. */
  predicate IsTransfer(tx: Tx) {
    TookEffect(tx) && tx.inMessage.operation.Transfer?
  }

  /**
    `r` is what a transaction of the recipient's own wallet pays, in terms of its incoming message: an
    error iff a transfer that took effect has a reference that cannot be decoded; payments iff it
    names an invoice; then exactly one in TON, of the value of the message, and one for each extra
    currency with a non-zero amount, all from the sender of the message.
  */
  ghost predicate ReadsNative(tx: Tx, account: Account, r: Result<seq<Payment>>) {
    var m := tx.inMessage;
    && (r.Err? <==> IsTransfer(tx) && m.operation.memo.Undecodable?)
    && (r.Ok? && r.value != [] <==> IsTransfer(tx) && m.operation.memo.ForInvoice?)
    && (r.Ok? && r.value != [] ==>
          && (forall p :: p in r.value ==>
                && p.invoiceId == m.operation.memo.id && p.paidBy == m.source
                && p.recipient == account.id && p.txHash == Digest(tx))
          && r.value[0].currency == Ton && r.value[0].amount == ToInt64(m.value)
          && (forall i :: 0 < i < |r.value| ==> r.value[i].currency.Extra?)
          && (forall extra: nat, amount: nat ::
                ExtraPaid(r.value, extra, amount) <==> (extra, amount) in m.extras && amount != 0))
  }

  ghost predicate ExtraPaid(payments: seq<Payment>, extra: nat, amount: nat) {
    exists p :: p in payments && p.currency == Extra(extra) && p.amount == amount
  }

  lemma {:induction false} ExtrasRead(tx: Tx, account: Account, id: InvoiceId, extras: seq<(nat, nat)>)
    ensures var ps := ExtraPayments(tx, account, id, extras);
            && (forall p :: p in ps ==>
                  && p.invoiceId == id && p.paidBy == tx.inMessage.source && p.currency.Extra?
                  && p.recipient == account.id && p.txHash == Digest(tx))
            && (forall extra: nat, amount: nat ::
                  ExtraPaid(ps, extra, amount) <==> (extra, amount) in extras && amount != 0)
    decreases |extras|
  {
    if extras != [] {
      var n := |extras| - 1;
      ExtrasRead(tx, account, id, extras[..n]);
      var before, all := ExtraPayments(tx, account, id, extras[..n]), ExtraPayments(tx, account, id, extras);
      assert extras == extras[..n] + [extras[n]];
      forall extra: nat, amount: nat
        ensures ExtraPaid(all, extra, amount) <==> (extra, amount) in extras && amount != 0
      {
        assert ExtraPaid(before, extra, amount) <==> (extra, amount) in extras[..n] && amount != 0;
        if (extra, amount) == extras[n] && amount != 0 {
          assert all[|before|] in all;
        }
      }
    }
  }

  lemma NativePaymentsRead(tx: Tx, account: Account)
    ensures ReadsNative(tx, account, NativePayments(tx, account))
  {
    if IsTransfer(tx) && tx.inMessage.operation.memo.ForInvoice? {
      var id := tx.inMessage.operation.memo.id;
      var extras := ExtraPayments(tx, account, id, tx.inMessage.extras);
      var all := NativePayments(tx, account).value;
      ExtrasRead(tx, account, id, tx.inMessage.extras);
      assert all == [all[0]] + extras;
      forall extra: nat, amount: nat
        ensures ExtraPaid(all, extra, amount) <==> ExtraPaid(extras, extra, amount)
      {
        if p :| p in extras && p.currency == Extra(extra) && p.amount == amount {
          assert p in all;
        }
      }
    }
  }

  method ExtractNativePayments(tx: Tx, account: Account) returns (r: Result<seq<Payment>>)
    ensures r == NativePayments(tx, account)
    ensures ReadsNative(tx, account, r)
  {
    NativePaymentsRead(tx, account);
    if !tx.success {
      return Ok([]);
    }
    if tx.inMessage.kind != Int {
      return Ok([]);
    }
    if !tx.inMessage.operation.Transfer? {
      return Ok([]);
    }
    var memo := tx.inMessage.operation.memo;
    if memo.Undecodable? {
      return Err;
    }
    if !memo.ForInvoice? {
      return Ok([]);
    }
    var res := [Payment(memo.id, Ton, ToInt64(tx.inMessage.value), tx.inMessage.source, account.id, Digest(tx))];
    var extras := tx.inMessage.extras;
    for i := 0 to |extras|
      invariant res ==
                [Payment(memo.id, Ton, ToInt64(tx.inMessage.value), tx.inMessage.source, account.id, Digest(tx))]
                + ExtraPayments(tx, account, memo.id, extras[..i])
    {
      assert extras[..i + 1][..i] == extras[..i];
      if extras[i].1 == 0 {
        continue;
      }
      res := res + [Payment(memo.id, Extra(extras[i].0), extras[i].1, tx.inMessage.source, account.id, Digest(tx))];
    }
    assert extras[..|extras|] == extras;
    return Ok(res);
  }

  // Jetton payments

  /** The first jetton notification from message `i` on decides; any external message ends the search. */
  function JettonPaymentsFrom(tx: Tx, account: Account, i: nat): Result<seq<Payment>>
    requires i <= |tx.outMessages| && account.info.jetton.Some?
    decreases |tx.outMessages| - i
  {
    if i == |tx.outMessages| || tx.outMessages[i].kind != Int then Ok([])
    else if !tx.outMessages[i].operation.JettonNotify? then JettonPaymentsFrom(tx, account, i + 1)
    else
      var m := tx.outMessages[i];
      match m.operation.memo
      case Undecodable => Err
      case Unrelated => Ok([])
      case NotAnId => Ok([])
      case ForInvoice(id) =>
        if m.operation.amount.None? || m.operation.sender.None?
           || m.destination != Some(account.info.recipient) then Err
        else
          Ok([Payment(id, Jetton(account.info.jetton.value), m.operation.amount.value,
                      m.operation.sender.value, account.info.recipient, Digest(tx))])
  }

  function JettonPayments(tx: Tx, account: Account): Result<seq<Payment>>
    requires account.info.jetton.Some?
  {
    if !tx.success || tx.inMessage.kind != Int then Ok([]) else JettonPaymentsFrom(tx, account, 0)
  }

  /** Message `i` is the notification that decides: all before it are internal, and none of them is one. */
  ghost predicate DecidesAt(tx: Tx, i: nat) {
    && i < |tx.outMessages|
    && (forall j :: 0 <= j < i ==>
          tx.outMessages[j].kind == Int && !tx.outMessages[j].operation.JettonNotify?)
    && tx.outMessages[i].kind == Int && tx.outMessages[i].operation.JettonNotify?
  }

  /** It names an invoice. */
  predicate IsNotice(m: Message) {
    m.operation.JettonNotify? && m.operation.memo.ForInvoice?
  }

  /** Amount and sender are there, and it went to the recipient. */
  predicate Complete(m: Message, account: Account)
    requires IsNotice(m)
  {
    m.operation.amount.Some? && m.operation.sender.Some? && m.destination == Some(account.info.recipient)
  }

  /** The payment that such a notification reports. */
  function Noticed(tx: Tx, m: Message, account: Account): Payment
    requires IsNotice(m) && Complete(m, account) && account.info.jetton.Some?
  {
    Payment(m.operation.memo.id, Jetton(account.info.jetton.value), m.operation.amount.value,
            m.operation.sender.value, account.info.recipient, Digest(tx))
  }

  ghost predicate PaysAt(tx: Tx, account: Account, i: nat) {
    DecidesAt(tx, i) && IsNotice(tx.outMessages[i]) && Complete(tx.outMessages[i], account)
  }

  ghost predicate FailsAt(tx: Tx, account: Account, i: nat) {
    && DecidesAt(tx, i)
    && (|| tx.outMessages[i].operation.memo.Undecodable?
        || (IsNotice(tx.outMessages[i]) && !Complete(tx.outMessages[i], account)))
  }

  /**
    `r` is what a transaction of a jetton wallet pays, in terms of its outgoing messages: the deciding
    notification is an error, or reports a payment; without one, or if it is unrelated to any
    invoice, nothing is paid.
  */
  ghost predicate ReadsJetton(tx: Tx, account: Account, r: Result<seq<Payment>>)
    requires account.info.jetton.Some?
  {
    && (r.Err? <==> TookEffect(tx) && exists i: nat :: FailsAt(tx, account, i))
    && (r.Ok? && r.value != [] <==> TookEffect(tx) && exists i: nat :: PaysAt(tx, account, i))
    && (forall i: nat :: TookEffect(tx) && PaysAt(tx, account, i) ==>
          r == Ok([Noticed(tx, tx.outMessages[i], account)]))
  }

  lemma OneDecides(tx: Tx, i: nat, j: nat)
    requires DecidesAt(tx, i) && DecidesAt(tx, j)
    ensures i == j
  {
  }

  /** The search from message `i` on, none of the messages before it being a notification. */
  lemma {:induction false} JettonPaymentsReadFrom(tx: Tx, account: Account, i: nat)
    requires TookEffect(tx) && i <= |tx.outMessages| && account.info.jetton.Some?
    requires forall j :: 0 <= j < i ==>
               tx.outMessages[j].kind == Int && !tx.outMessages[j].operation.JettonNotify?
    ensures ReadsJetton(tx, account, JettonPaymentsFrom(tx, account, i))
    decreases |tx.outMessages| - i
  {
    if i < |tx.outMessages| && tx.outMessages[i].kind == Int {
      if tx.outMessages[i].operation.JettonNotify? {
        assert DecidesAt(tx, i);
        assert FailsAt(tx, account, i) || PaysAt(tx, account, i) || JettonPaymentsFrom(tx, account, i) == Ok([]);
        forall j: nat | DecidesAt(tx, j)
          ensures j == i
        {
          OneDecides(tx, i, j);
        }
      } else {
        JettonPaymentsReadFrom(tx, account, i + 1);
      }
    } else {
      forall j: nat
        ensures !DecidesAt(tx, j)
      {
      }
    }
  }

  lemma JettonPaymentsRead(tx: Tx, account: Account)
    requires account.info.jetton.Some?
    ensures ReadsJetton(tx, account, JettonPayments(tx, account))
  {
    if TookEffect(tx) {
      JettonPaymentsReadFrom(tx, account, 0);
    }
  }

  method ExtractJettonPayments(tx: Tx, account: Account) returns (r: Result<seq<Payment>>)
    requires account.info.jetton.Some?
    ensures r == JettonPayments(tx, account)
    ensures ReadsJetton(tx, account, r)
  {
    JettonPaymentsRead(tx, account);
    if !tx.success {
      return Ok([]);
    }
    if tx.inMessage.kind != Int {
      return Ok([]);
    }
    for i := 0 to |tx.outMessages|
      invariant JettonPayments(tx, account) == JettonPaymentsFrom(tx, account, i)
    {
      var m := tx.outMessages[i];
      if m.kind != Int {
        return Ok([]);
      }
      if !m.operation.JettonNotify? {
        continue;
      }
      var memo := m.operation.memo;
      if memo.Undecodable? {
        return Err;
      }
      if !memo.ForInvoice? {
        return Ok([]);
      }
      if m.operation.amount.None? {
        return Err;
      }
      if m.operation.sender.None? {
        return Err;
      }
      if m.destination.None? {
        return Err;
      }
      if m.destination.value != account.info.recipient {
        return Err;
      }
      return Ok([Payment(memo.id, Jetton(account.info.jetton.value), m.operation.amount.value,
                         m.operation.sender.value, account.info.recipient, Digest(tx))]);
    }
    return Ok([]);
  }

  // What the ledger may rely on

  /** What the worker of `account` reads out of `tx`. */
  function Extracted(tx: Tx, account: Account): Result<seq<Payment>> {
    if account.info.jetton.Some? then JettonPayments(tx, account) else NativePayments(tx, account)
  }

  /** The payments booked for `tx`: none when it cannot be parsed. */
  function PaymentsOf(tx: Tx, account: Account): seq<Payment> {
    match Extracted(tx, account)
    case Ok(payments) => payments
    case Err => []
  }

  /** Invoices in this currency and for this recipient are credited by the worker of `account` only. */
  ghost predicate Serves(account: Account, currency: Currency, recipient: Address) {
    if account.info.jetton.Some? then
      currency == Jetton(account.info.jetton.value) && recipient == account.info.recipient
    else
      !currency.Jetton? && recipient == account.id
  }

  /** Different accounts serve different invoices. */
  ghost predicate Disjoint(accounts: map<Address, Account>) {
    forall a, b, currency, recipient ::
      a in accounts && b in accounts
      && Serves(accounts[a], currency, recipient) && Serves(accounts[b], currency, recipient)
      ==> a == b
  }

  lemma {:induction false} ExtraPaymentsServed(tx: Tx, account: Account, id: InvoiceId, extras: seq<(nat, nat)>)
    ensures forall p :: p in ExtraPayments(tx, account, id, extras) ==>
              p.invoiceId == id && p.currency.Extra? && p.amount > 0
              && p.recipient == account.id && p.txHash == Digest(tx)
  {
    if extras != [] {
      ExtraPaymentsServed(tx, account, id, extras[..|extras| - 1]);
    }
  }

  lemma {:induction false} JettonPaymentsServed(tx: Tx, account: Account, i: nat)
    requires i <= |tx.outMessages| && account.info.jetton.Some?
    ensures JettonPaymentsFrom(tx, account, i).Ok? ==>
              var ps := JettonPaymentsFrom(tx, account, i).value;
              |ps| <= 1 && forall p :: p in ps ==> Serves(account, p.currency, p.recipient) && p.txHash == Digest(tx)
    decreases |tx.outMessages| - i
  {
    if i < |tx.outMessages| {
      JettonPaymentsServed(tx, account, i + 1);
    }
  }

  /**
    All payments of one transaction name one invoice, carry the hash of the transaction, and are in
    a currency and for a recipient that the account serves.
  */
  lemma PaymentsServed(tx: Tx, account: Account)
    ensures forall p, p' :: p in PaymentsOf(tx, account) && p' in PaymentsOf(tx, account) ==>
              p.invoiceId == p'.invoiceId
    ensures forall p :: p in PaymentsOf(tx, account) ==>
              Serves(account, p.currency, p.recipient) && p.txHash == Digest(tx)
  {
    if account.info.jetton.Some? {
      JettonPaymentsServed(tx, account, 0);
    } else if tx.inMessage.operation.Transfer? && tx.inMessage.operation.memo.ForInvoice? {
      ExtraPaymentsServed(tx, account, tx.inMessage.operation.memo.id, tx.inMessage.extras);
    }
  }

  /**
    The payments of a native transfer are all non-negative exactly when its value, an unsigned 64-bit
    number, is below 2^63; from there on the conversion to int64 turns it negative.
  */
  lemma NativeAmountsSigned(tx: Tx, account: Account)
    requires account.info.jetton.None? && tx.inMessage.value < TWO_64
    requires PaymentsOf(tx, account) != []
    ensures (forall p :: p in PaymentsOf(tx, account) ==> p.amount >= 0) <==> tx.inMessage.value < TWO_63
  {
    ExtraPaymentsServed(tx, account, tx.inMessage.operation.memo.id, tx.inMessage.extras);
    assert PaymentsOf(tx, account)[0].amount == ToInt64(tx.inMessage.value);
  }

  /** Extra currencies come from a map, so each id occurs once. */
  predicate DistinctExtras(extras: seq<(nat, nat)>) {
    forall i, j :: 0 <= i < j < |extras| ==> extras[i].0 != extras[j].0
  }

  lemma {:induction false} ExtraCurrenciesDiffer(tx: Tx, account: Account, id: InvoiceId, extras: seq<(nat, nat)>)
    requires DistinctExtras(extras)
    ensures var ps := ExtraPayments(tx, account, id, extras);
            && (forall p :: p in ps ==> exists i :: 0 <= i < |extras| && p.currency == Extra(extras[i].0))
            && (forall i, j :: 0 <= i < j < |ps| ==> ps[i].currency != ps[j].currency)
    decreases |extras|
  {
    if extras != [] {
      var rest := extras[..|extras| - 1];
      ExtraCurrenciesDiffer(tx, account, id, rest);
      var before := ExtraPayments(tx, account, id, rest);
      forall p | p in before
        ensures exists i :: 0 <= i < |extras| - 1 && p.currency == Extra(extras[i].0)
      {
        var i :| 0 <= i < |rest| && p.currency == Extra(rest[i].0);
        assert extras[i] == rest[i];
      }
      assert forall i :: 0 <= i < |before| ==> before[i] in before;
    }
  }

  /** No two payments of one transaction are in the same currency: at most one is booked on an invoice. */
  lemma CurrenciesDiffer(tx: Tx, account: Account)
    requires DistinctExtras(tx.inMessage.extras)
    ensures forall i, j :: 0 <= i < j < |PaymentsOf(tx, account)| ==>
              PaymentsOf(tx, account)[i].currency != PaymentsOf(tx, account)[j].currency
  {
    if account.info.jetton.Some? {
      JettonPaymentsServed(tx, account, 0);
    } else if tx.inMessage.operation.Transfer? && tx.inMessage.operation.memo.ForInvoice? {
      var id := tx.inMessage.operation.memo.id;
      var extras := ExtraPayments(tx, account, id, tx.inMessage.extras);
      ExtraCurrenciesDiffer(tx, account, id, tx.inMessage.extras);
      ExtraPaymentsServed(tx, account, id, tx.inMessage.extras);
      assert forall i :: 0 <= i < |extras| ==> extras[i] in extras;
    }
  }
}
